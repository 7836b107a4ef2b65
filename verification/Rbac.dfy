/** Reconciliation of role bindings: create or update the wanted ones, then prune by name prefix. */
module Rbac {
  import opened RbacNames

  /** `account` is the service account of the only subject. */
  datatype RoleBinding = RoleBinding(ref: RoleRef, account: string)

  /** The role bindings of one namespace, by name. */
  type Bindings = map<string, RoleBinding>

  function NewRoleBinding(jenkins: string, ref: RoleRef): RoleBinding
  {
    RoleBinding(ref, ResourceName(jenkins))
  }

  /** Names of the wanted extra bindings. */
  function Names(jenkins: string, roles: seq<RoleRef>): set<string>
  {
    set ref | ref in roles :: ExtraRoleBindingName(jenkins, ref)
  }

  /** Every wanted binding is in place; of two roles with one name the last one counts. */
  function Applied(m: Bindings, jenkins: string, roles: seq<RoleRef>): Bindings
  {
    if roles == [] then m
    else
      var last := roles[|roles| - 1];
      Applied(m, jenkins, roles[..|roles| - 1])[ExtraRoleBindingName(jenkins, last) := NewRoleBinding(jenkins, last)]
  }

  /** The bindings of this instance that are not wanted are gone. */
  function Pruned(m: Bindings, jenkins: string, roles: seq<RoleRef>): Bindings
  {
    map n | n in m && (!Owned(jenkins, n) || n in Names(jenkins, roles)) :: m[n]
  }

  function Reconciled(m: Bindings, jenkins: string, roles: seq<RoleRef>): Bindings
  {
    Pruned(Applied(m, jenkins, roles), jenkins, roles)
  }

  lemma {:induction false} AppliedAt(m: Bindings, jenkins: string, roles: seq<RoleRef>, n: string)
    ensures n in Applied(m, jenkins, roles) <==> n in m || n in Names(jenkins, roles)
    ensures n !in Names(jenkins, roles) && n in m ==> Applied(m, jenkins, roles)[n] == m[n]
    ensures n in Names(jenkins, roles) ==>
              exists ref :: ref in roles && ExtraRoleBindingName(jenkins, ref) == n &&
                            Applied(m, jenkins, roles)[n] == NewRoleBinding(jenkins, ref)
  {
    if roles != [] {
      var front, last := roles[..|roles| - 1], roles[|roles| - 1];
      assert roles == front + [last];
      AppliedAt(m, jenkins, front, n);
    }
  }

  /** What a wanted name ends up with does not depend on what was there. */
  lemma {:induction false} AppliedSame(m: Bindings, m': Bindings, jenkins: string, roles: seq<RoleRef>, n: string)
    requires n in Names(jenkins, roles)
    ensures n in Applied(m, jenkins, roles) && n in Applied(m', jenkins, roles)
    ensures Applied(m, jenkins, roles)[n] == Applied(m', jenkins, roles)[n]
  {
    var front, last := roles[..|roles| - 1], roles[|roles| - 1];
    assert roles == front + [last];
    AppliedAt(m, jenkins, roles, n);
    AppliedAt(m', jenkins, roles, n);
    if ExtraRoleBindingName(jenkins, last) != n {
      AppliedSame(m, m', jenkins, front, n);
    }
  }

  lemma ReconciledAt(m: Bindings, jenkins: string, roles: seq<RoleRef>, n: string)
    ensures n in Reconciled(m, jenkins, roles) <==>
            n in Names(jenkins, roles) || (n in m && !Owned(jenkins, n))
    ensures n in m && !Owned(jenkins, n) ==> Reconciled(m, jenkins, roles)[n] == m[n]
    ensures n in Names(jenkins, roles) ==> Owned(jenkins, n)
    ensures n in Names(jenkins, roles) ==>
              exists ref :: ref in roles && ExtraRoleBindingName(jenkins, ref) == n &&
                            Reconciled(m, jenkins, roles)[n] == NewRoleBinding(jenkins, ref)
  {
    AppliedAt(m, jenkins, roles, n);
    if n in Names(jenkins, roles) {
      var ref :| ref in roles && ExtraRoleBindingName(jenkins, ref) == n;
      OwnNames(jenkins, ref);
    }
  }

  /**
   * Exactness. The names with this instance's prefixes are exactly those of the wanted roles, each bound to a
   * wanted role of that name; every other binding, the main one included, is what it was; and doing it again
   * changes nothing.
   */
  lemma ReconciledExact(m: Bindings, jenkins: string, roles: seq<RoleRef>)
    ensures var r := Reconciled(m, jenkins, roles);
            && (forall n :: n in r && Owned(jenkins, n) <==> n in Names(jenkins, roles))
            && (forall n | n in Names(jenkins, roles) ::
                  exists ref :: ref in roles && ExtraRoleBindingName(jenkins, ref) == n &&
                                r[n] == NewRoleBinding(jenkins, ref))
            && (forall n | !Owned(jenkins, n) :: (n in r <==> n in m) && (n in r ==> r[n] == m[n]))
            && !Owned(jenkins, ResourceName(jenkins))
            && Reconciled(r, jenkins, roles) == r
  {
    var r := Reconciled(m, jenkins, roles);
    var rr := Reconciled(r, jenkins, roles);
    OwnNames(jenkins, RoleRef("", "", ""));
    forall n
      ensures n in r && Owned(jenkins, n) <==> n in Names(jenkins, roles)
      ensures n in Names(jenkins, roles) ==>
                exists ref :: ref in roles && ExtraRoleBindingName(jenkins, ref) == n &&
                              r[n] == NewRoleBinding(jenkins, ref)
      ensures !Owned(jenkins, n) ==> (n in r <==> n in m) && (n in r ==> r[n] == m[n])
      ensures (n in rr <==> n in r) && (n in r ==> rr[n] == r[n])
    {
      ReconciledAt(m, jenkins, roles, n);
      ReconciledAt(r, jenkins, roles, n);
      if n in Names(jenkins, roles) {
        AppliedSame(m, r, jenkins, roles, n);
      }
    }
    assert rr == r;
  }

  /**
   * What the bindings of the wanted names bind: a wanted role, the very one the name is spelled after, kind, group
   * and all, to the service account of the instance and no other.
   */
  lemma {:induction false} BindsTheWantedRole(m: Bindings, jenkins: string, roles: seq<RoleRef>, n: string)
    requires n in Names(jenkins, roles)
    ensures var r := Reconciled(m, jenkins, roles);
            && n in r && r[n].ref in roles && r[n].account == "jenkins-" + jenkins
            && n == "jenkins-" + jenkins + (if r[n].ref.kind == "ClusterRole" then "-cr-" else "-r-") + r[n].ref.name
  {
    ReconciledAt(m, jenkins, roles, n);
  }

  /** Every wanted role has its binding, by a name spelled after it. */
  lemma {:induction false} EveryRoleIsBound(m: Bindings, jenkins: string, roles: seq<RoleRef>, ref: RoleRef)
    requires ref in roles
    ensures var n := "jenkins-" + jenkins + (if ref.kind == "ClusterRole" then "-cr-" else "-r-") + ref.name;
            var r := Reconciled(m, jenkins, roles);
            && n in r && r[n].ref in roles && r[n].ref.name == ref.name
            && (r[n].ref.kind == "ClusterRole" <==> ref.kind == "ClusterRole")
  {
    var n := ExtraRoleBindingName(jenkins, ref);
    assert n in Names(jenkins, roles);
    BindsTheWantedRole(m, jenkins, roles, n);
    NamesInjective(jenkins, ref, Reconciled(m, jenkins, roles)[n].ref);
  }

  /**
   * Non-interference. Two instances whose names do not shadow each other never touch each other's bindings, and
   * their reconciliations commute.
   */
  lemma Independent(m: Bindings, a: string, ra: seq<RoleRef>, b: string, rb: seq<RoleRef>)
    requires a != b && !Shadows(a, b) && !Shadows(b, a)
    ensures var r := Reconciled(m, a, ra);
            forall n | Owned(b, n) || n == ResourceName(b) :: (n in r <==> n in m) && (n in r ==> r[n] == m[n])
    ensures Reconciled(Reconciled(m, a, ra), b, rb) == Reconciled(Reconciled(m, b, rb), a, ra)
  {
    var r, s := Reconciled(m, a, ra), Reconciled(m, b, rb);
    var rs, sr := Reconciled(r, b, rb), Reconciled(s, a, ra);
    forall n
      ensures Owned(b, n) || n == ResourceName(b) ==> (n in r <==> n in m) && (n in r ==> r[n] == m[n])
      ensures (n in rs <==> n in sr) && (n in rs ==> rs[n] == sr[n])
    {
      Disjoint(a, b, n);
      CommuteAt(m, a, ra, b, rb, n);
      ReconciledAt(m, a, ra, n);
    }
    assert rs == sr;
  }

  lemma CommuteAt(m: Bindings, a: string, ra: seq<RoleRef>, b: string, rb: seq<RoleRef>, n: string)
    requires !(Owned(a, n) && Owned(b, n))
    ensures var rs, sr := Reconciled(Reconciled(m, a, ra), b, rb), Reconciled(Reconciled(m, b, rb), a, ra);
            (n in rs <==> n in sr) && (n in rs ==> rs[n] == sr[n])
  {
    ReconciledAt(m, a, ra, n);
    ReconciledAt(m, b, rb, n);
    ReconciledAt(Reconciled(m, a, ra), b, rb, n);
    ReconciledAt(Reconciled(m, b, rb), a, ra, n);
    if n in Names(a, ra) {
      AppliedSame(m, Reconciled(m, b, rb), a, ra, n);
    }
    if n in Names(b, rb) {
      AppliedSame(m, Reconciled(m, a, ra), b, rb, n);
    }
  }

  datatype Reply = Succeeded | AlreadyExists | Failed

  /** The namespace as the API server serves it. Any call may fail, and then has no effect. */
  class Namespace {
    var items: Bindings
    var calls: nat
    const failing: nat -> bool

    constructor (items: Bindings, failing: nat -> bool)
      ensures this.items == items && this.failing == failing
    {
      this.items := items;
      this.failing := failing;
      calls := 0;
    }

    method Create(name: string, binding: RoleBinding) returns (r: Reply)
      modifies this
      ensures calls == old(calls) + 1
      ensures r.Succeeded? ==> name !in old(items) && items == old(items)[name := binding]
      ensures !r.Succeeded? ==> items == old(items)
      ensures r.AlreadyExists? ==> name in items
      ensures r.Failed? ==> failing(calls)
    {
      calls := calls + 1;
      if failing(calls) {
        return Failed;
      }
      if name in items {
        return AlreadyExists;
      }
      items := items[name := binding];
      r := Succeeded;
    }

    method Update(name: string, binding: RoleBinding) returns (r: Reply)
      modifies this
      ensures !r.AlreadyExists?
      ensures calls == old(calls) + 1
      ensures r.Failed? ==> failing(calls) || name !in items
      ensures r.Succeeded? ==> name in old(items) && items == old(items)[name := binding]
      ensures !r.Succeeded? ==> items == old(items)
    {
      calls := calls + 1;
      if failing(calls) || name !in items {
        return Failed;
      }
      items := items[name := binding];
      r := Succeeded;
    }

    method Delete(name: string) returns (r: Reply)
      modifies this
      ensures !r.AlreadyExists?
      ensures calls == old(calls) + 1
      ensures r.Failed? ==> failing(calls) || name !in items
      ensures r.Succeeded? ==> items == old(items) - {name}
      ensures !r.Succeeded? ==> items == old(items)
    {
      calls := calls + 1;
      if failing(calls) || name !in items {
        return Failed;
      }
      items := items - {name};
      r := Succeeded;
    }

    method List() returns (r: Reply, names: set<string>)
      modifies this`calls
      ensures !r.AlreadyExists?
      ensures calls == old(calls) + 1
      ensures r.Failed? ==> failing(calls)
      ensures r.Succeeded? ==> names == items.Keys
    {
      calls := calls + 1;
      if failing(calls) {
        return Failed, {};
      }
      return Succeeded, items.Keys;
    }
  }

  class RbacReconciler {
    const namespace: Namespace
    const jenkins: string

    constructor (namespace: Namespace, jenkins: string)
      ensures this.namespace == namespace && this.jenkins == jenkins
    {
      this.namespace := namespace;
      this.jenkins := jenkins;
    }

    /** One of the API calls made since `from` has failed. */
    ghost predicate Disturbed(from: nat)
      reads namespace
    {
      exists k | from < k <= namespace.calls :: namespace.failing(k)
    }

    method CreateOrUpdateResource(name: string, binding: RoleBinding) returns (err: bool)
      modifies namespace
      ensures namespace.calls >= old(namespace.calls)
      ensures err ==> Disturbed(old(namespace.calls))
      ensures !err ==> namespace.items == old(namespace.items)[name := binding]
      ensures err ==> namespace.items == old(namespace.items)
    {
      var r := namespace.Create(name, binding);
      if r.AlreadyExists? {
        r := namespace.Update(name, binding);
        return r.Failed?;
      } else if r.Failed? {
        return true;
      }
      err := false;
    }

    /** The last step of createRBAC: the binding of the instance to its own role. */
    method CreateMainBinding() returns (err: bool)
      modifies namespace
      ensures err ==> Disturbed(old(namespace.calls))
      ensures var own := "jenkins-" + jenkins;
              namespace.items ==
              if err then old(namespace.items)
              else old(namespace.items)[own := RoleBinding(RoleRef("rbac.authorization.k8s.io", "Role", own), own)]
    {
      var role := RoleRef("rbac.authorization.k8s.io", "Role", ResourceName(jenkins));
      err := CreateOrUpdateResource(ResourceName(jenkins), NewRoleBinding(jenkins, role));
    }

    method CreateExtraBindings(roles: seq<RoleRef>) returns (err: bool)
      modifies namespace
      ensures namespace.calls >= old(namespace.calls)
      ensures err ==> Disturbed(old(namespace.calls))
      ensures !err ==> namespace.items == Applied(old(namespace.items), jenkins, roles)
      ensures OthersKept(old(namespace.items), namespace.items, jenkins)
    {
      ghost var before := namespace.items;
      for i := 0 to |roles|
        invariant namespace.items == Applied(before, jenkins, roles[..i]) && namespace.calls >= old(namespace.calls)
      {
        assert roles[..i + 1][..i] == roles[..i];
        err := CreateOrUpdateResource(ExtraRoleBindingName(jenkins, roles[i]), NewRoleBinding(jenkins, roles[i]));
        if err {
          AppliedKeepsOthers(before, jenkins, roles[..i]);
          return;
        }
      }
      assert roles[..|roles|] == roles;
      AppliedKeepsOthers(before, jenkins, roles);
      err := false;
    }

    method IsWanted(roles: seq<RoleRef>, name: string) returns (found: bool)
      ensures found <==> name in Names(jenkins, roles)
    {
      found := false;
      for i := 0 to |roles|
        invariant found <==> exists k | 0 <= k < i :: ExtraRoleBindingName(jenkins, roles[k]) == name
      {
        if name == ExtraRoleBindingName(jenkins, roles[i]) {
          found := true;
        }
      }
    }

    method PruneBindings(roles: seq<RoleRef>) returns (err: bool)
      modifies namespace
      ensures namespace.calls >= old(namespace.calls)
      ensures err ==> Disturbed(old(namespace.calls))
      ensures !err ==> namespace.items == Pruned(old(namespace.items), jenkins, roles)
      ensures OthersKept(old(namespace.items), namespace.items, jenkins)
    {
      ghost var before := namespace.items;
      var r, todo := namespace.List();
      if r.Failed? {
        return true;
      }
      assert PrunedBut(before, jenkins, roles, todo) == before;
      while todo != {}
        invariant todo <= before.Keys && namespace.calls >= old(namespace.calls)
        invariant namespace.items == PrunedBut(before, jenkins, roles, todo)
        decreases |todo|
      {
        var name :| name in todo;
        todo := todo - {name};
        PruneStep(before, jenkins, roles, todo, name);
        if !(ExtraRoleBindingName(jenkins, RoleRef("", "Role", "")) <= name) &&
           !(ExtraRoleBindingName(jenkins, RoleRef("", "ClusterRole", "")) <= name)
        {
          continue;
        }
        var found := IsWanted(roles, name);
        if !found {
          r := namespace.Delete(name);
          if r.Failed? {
            return true;
          }
        }
      }
      assert PrunedBut(before, jenkins, roles, {}) == Pruned(before, jenkins, roles);
      err := false;
    }

    /**
     * Whatever happens only names of this instance are touched; without an error the result is exact; an error
     * means that some API call has failed.
     */
    method EnsureExtraRBACArePresent(roles: seq<RoleRef>) returns (err: bool)
      modifies namespace
      ensures err ==> Disturbed(old(namespace.calls))
      ensures !err ==> namespace.items == Reconciled(old(namespace.items), jenkins, roles)
      ensures !err ==> forall n | n in Names(jenkins, roles) ::
                n in namespace.items && namespace.items[n].ref in roles && namespace.items[n].account == "jenkins-" + jenkins
      ensures OthersKept(old(namespace.items), namespace.items, jenkins)
    {
      err := CreateExtraBindings(roles);
      if err {
        return;
      }
      ghost var before := old(namespace.items);
      err := PruneBindings(roles);
      forall n | n in Names(jenkins, roles)
        ensures var r := Reconciled(before, jenkins, roles);
                n in r && r[n].ref in roles && r[n].account == "jenkins-" + jenkins
      {
        BindsTheWantedRole(before, jenkins, roles, n);
      }
    }
  }

  /** Bindings outside the instance's prefixes are untouched. */
  ghost predicate OthersKept(m: Bindings, m': Bindings, jenkins: string)
  {
    forall n | !Owned(jenkins, n) :: (n in m' <==> n in m) && (n in m' ==> m'[n] == m[n])
  }

  /** Pruned, except for the names still to be looked at. */
  function PrunedBut(m: Bindings, jenkins: string, roles: seq<RoleRef>, todo: set<string>): Bindings
  {
    map n | n in m && (n in todo || !Owned(jenkins, n) || n in Names(jenkins, roles)) :: m[n]
  }

  lemma PruneStep(m: Bindings, jenkins: string, roles: seq<RoleRef>, todo: set<string>, name: string)
    requires name in m && name !in todo
    ensures PrunedBut(m, jenkins, roles, todo) ==
            if !Owned(jenkins, name) || name in Names(jenkins, roles)
            then PrunedBut(m, jenkins, roles, todo + {name})
            else PrunedBut(m, jenkins, roles, todo + {name}) - {name}
  {
  }

  lemma AppliedKeepsOthers(m: Bindings, jenkins: string, roles: seq<RoleRef>)
    ensures OthersKept(m, Applied(m, jenkins, roles), jenkins)
  {
    forall n | !Owned(jenkins, n)
      ensures n in Applied(m, jenkins, roles) <==> n in m
      ensures n in m ==> Applied(m, jenkins, roles)[n] == m[n]
    {
      AppliedAt(m, jenkins, roles, n);
      ReconciledAt(m, jenkins, roles, n);
    }
  }
}
