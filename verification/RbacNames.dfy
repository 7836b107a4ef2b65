/** Names of the role bindings of one Jenkins, and when two Jenkins instances can get in each other's way. */
module RbacNames {

  datatype RoleRef = RoleRef(apiGroup: string, kind: string, name: string)

  /** Name of the service account, of the role and of the main binding. */
  function ResourceName(jenkins: string): string
  {
    "jenkins-" + jenkins
  }

  /** "-cr-" for a ClusterRole, "-r-" for anything else. */
  function Infix(cluster: bool): string
  {
    if cluster then "-cr-" else "-r-"
  }

  function ExtraRoleBindingName(jenkins: string, ref: RoleRef): string
  {
    ResourceName(jenkins) + Infix(ref.kind == "ClusterRole") + ref.name
  }

  /** The prune loop of `jenkins` considers this name. */
  predicate Owned(jenkins: string, name: string)
  {
    ExtraRoleBindingName(jenkins, RoleRef("", "Role", "")) <= name ||
    ExtraRoleBindingName(jenkins, RoleRef("", "ClusterRole", "")) <= name
  }

  /** `b` followed by a dash starts with `a` followed by one of the two infixes. */
  predicate Shadows(a: string, b: string)
  {
    a + Infix(false) <= b + "-" || a + Infix(true) <= b + "-"
  }

  lemma OwnedByPrefix(jenkins: string, name: string)
    ensures Owned(jenkins, name) <==>
            ResourceName(jenkins) + Infix(false) <= name || ResourceName(jenkins) + Infix(true) <= name
  {
    assert "Role" != "ClusterRole" by {
      assert |"Role"| != |"ClusterRole"|;
    }
    assert ResourceName(jenkins) + Infix(false) + "" == ResourceName(jenkins) + Infix(false);
    assert ResourceName(jenkins) + Infix(true) + "" == ResourceName(jenkins) + Infix(true);
  }

  /** The names an instance's prune loop considers, spelled out. */
  lemma OwnedSpelled(jenkins: string, name: string)
    ensures Owned(jenkins, name) <==>
            "jenkins-" + jenkins + "-r-" <= name || "jenkins-" + jenkins + "-cr-" <= name
  {
    OwnedByPrefix(jenkins, name);
  }

  /** The name of an extra binding, spelled out: "-cr-" for a ClusterRole, "-r-" for everything else. */
  lemma NameSpelled(jenkins: string, ref: RoleRef)
    ensures ExtraRoleBindingName(jenkins, ref) ==
            "jenkins-" + jenkins + (if ref.kind == "ClusterRole" then "-cr-" else "-r-") + ref.name
  {
  }

  /** Every extra binding of an instance is one its prune loop considers; its main binding is not. */
  lemma OwnNames(jenkins: string, ref: RoleRef)
    ensures Owned(jenkins, ExtraRoleBindingName(jenkins, ref))
    ensures !Owned(jenkins, ResourceName(jenkins))
  {
    OwnedByPrefix(jenkins, ExtraRoleBindingName(jenkins, ref));
    OwnedByPrefix(jenkins, ResourceName(jenkins));
  }

  /** Within one instance a binding name determines whether the role is a ClusterRole, and its name. */
  lemma NamesInjective(jenkins: string, x: RoleRef, y: RoleRef)
    requires ExtraRoleBindingName(jenkins, x) == ExtraRoleBindingName(jenkins, y)
    ensures (x.kind == "ClusterRole") == (y.kind == "ClusterRole") && x.name == y.name
  {
    var n, p := ExtraRoleBindingName(jenkins, x), ResourceName(jenkins);
    var i, j := Infix(x.kind == "ClusterRole"), Infix(y.kind == "ClusterRole");
    assert n[|p| + 1] == i[1];
    assert n[|p| + 1] == j[1];
    assert i == j;
    assert n[|p| + |i|..] == x.name;
    assert n[|p| + |j|..] == y.name;
  }

  /** The only dashes of an infix are its first and its last character. */
  lemma InfixDashes(cluster: bool, k: nat)
    requires k < |Infix(cluster)|
    ensures Infix(cluster)[k] == '-' <==> k == 0 || k == |Infix(cluster)| - 1
  {
  }

  /** If one name with an infix extends another name with an infix, one of the two names shadows the other. */
  lemma PrefixMeansShadow(a: string, s: bool, b: string, t: bool, x: string)
    requires a != b && a + Infix(s) <= b + (Infix(t) + x)
    ensures Shadows(a, b) || Shadows(b, a)
  {
    var p, q := a + Infix(s), b + (Infix(t) + x);
    if |a| < |b| {
      var d := |b| - |a|;
      if d < |Infix(s)| {
        assert p[|b|] == Infix(s)[d];
        assert q[|b|] == Infix(t)[0] == '-';
        InfixDashes(s, d);
      }
      assert p <= b + "-" by {
        forall k | 0 <= k < |p| ensures p[k] == (b + "-")[k] {
          assert p[k] == q[k];
        }
      }
    } else if |b| < |a| {
      var d := |a| - |b|;
      if d < |Infix(t)| {
        assert p[|a|] == Infix(s)[0] == '-';
        assert q[|a|] == Infix(t)[d];
        InfixDashes(t, d);
      }
      assert b + Infix(t) <= a + "-" by {
        forall k | 0 <= k < |b + Infix(t)| ensures (b + Infix(t))[k] == (a + "-")[k] {
          assert p[k] == q[k];
        }
      }
    } else {
      EqualHeads(a, Infix(s), b, Infix(t) + x);
    }
  }

  lemma EqualHeads(a: string, x: string, b: string, y: string)
    requires |a| == |b| && a + x <= b + y
    ensures a == b
  {
    assert a == (a + x)[..|a|] == (b + y)[..|a|] == b;
  }

  lemma StripResource(a: string, s: bool, name: string, rest: string)
    requires name == ResourceName(rest)
    ensures ResourceName(a) + Infix(s) <= name <==> a + Infix(s) <= rest
  {
    var p := ResourceName(a) + Infix(s);
    assert p == "jenkins-" + (a + Infix(s));
    if p <= name {
      assert (a + Infix(s)) == p[8..] == name[8..|p|];
      assert rest == name[8..];
    }
  }

  /** Owned by `a`, in terms of the name without the common first word. */
  lemma OwnedStripped(a: string, rest: string)
    ensures Owned(a, ResourceName(rest)) <==> a + Infix(false) <= rest || a + Infix(true) <= rest
  {
    OwnedByPrefix(a, ResourceName(rest));
    StripResource(a, false, ResourceName(rest), rest);
    StripResource(a, true, ResourceName(rest), rest);
  }

  /**
   * Exactly when two instances can collide: the prune loop of `a` considers some binding of `b` if and only if
   * one name followed by a dash starts with the other followed by an infix.
   */
  lemma CollideIff(a: string, b: string)
    requires a != b
    ensures (exists ref :: Owned(a, ExtraRoleBindingName(b, ref))) <==> Shadows(a, b) || Shadows(b, a)
  {
    if ref :| Owned(a, ExtraRoleBindingName(b, ref)) {
      OwnedMeansShadow(a, b, ref);
    }
    if Shadows(a, b) {
      ShadowedIsOwned(a, b, RoleRef("", "Role", "view"));
    } else if Shadows(b, a) {
      var ref := CollidingRole(a, b);
    }
  }

  lemma OwnedMeansShadow(a: string, b: string, ref: RoleRef)
    requires a != b && Owned(a, ExtraRoleBindingName(b, ref))
    ensures Shadows(a, b) || Shadows(b, a)
  {
    var t := ref.kind == "ClusterRole";
    var rest := b + (Infix(t) + ref.name);
    assert ExtraRoleBindingName(b, ref) == ResourceName(rest);
    OwnedStripped(a, rest);
    if a + Infix(false) <= rest {
      PrefixMeansShadow(a, false, b, t, ref.name);
    } else {
      PrefixMeansShadow(a, true, b, t, ref.name);
    }
  }

  /** If `a` shadows `b`, the prune loop of `a` considers every extra binding of `b`. */
  lemma ShadowedIsOwned(a: string, b: string, ref: RoleRef)
    requires Shadows(a, b)
    ensures Owned(a, ExtraRoleBindingName(b, ref))
  {
    var t := ref.kind == "ClusterRole";
    var rest := b + Infix(t) + ref.name;
    assert ExtraRoleBindingName(b, ref) == ResourceName(rest);
    assert b + "-" <= rest by {
      assert Infix(t)[0] == '-';
    }
    OwnedStripped(a, rest);
  }

  lemma CollidingRole(a: string, b: string) returns (ref: RoleRef)
    requires Shadows(b, a)
    ensures Owned(a, ExtraRoleBindingName(b, ref))
  {
    var t := !(b + Infix(false) <= a + "-");
    var n := |b + Infix(t)|;
    var name := (a + "-")[n..] + "r-x";
    ref := RoleRef("", if t then "ClusterRole" else "Role", name);
    assert "Role" != "ClusterRole" by {
      assert |"Role"| != |"ClusterRole"|;
    }
    var rest := b + Infix(t) + name;
    assert rest == (a + "-")[..n] + (a + "-")[n..] + "r-x" == a + "-" + "r-x";
    assert a + Infix(false) <= rest by {
      assert a + "-" + "r-x" == a + Infix(false) + "x";
    }
    assert ExtraRoleBindingName(b, ref) == ResourceName(rest);
    OwnedStripped(a, rest);
  }

  /** One name below two prefixes. */
  lemma CommonName(a: string, s: bool, b: string, t: bool, name: string)
    requires a != b && ResourceName(a) + Infix(s) <= name && ResourceName(b) + Infix(t) <= name
    ensures Shadows(a, b) || Shadows(b, a)
  {
    var p, q := a + Infix(s), b + Infix(t);
    assert ResourceName(a) + Infix(s) == "jenkins-" + p;
    assert ResourceName(b) + Infix(t) == "jenkins-" + q;
    var rest := name[8..];
    assert p == ("jenkins-" + p)[8..] && q == ("jenkins-" + q)[8..];
    assert p <= rest && q <= rest;
    var x := rest[|q|..];
    assert rest == b + (Infix(t) + x);
    PrefixMeansShadow(a, s, b, t, x);
  }

  /** Instances that do not shadow each other own no common name, and neither owns the other's main binding. */
  lemma Disjoint(a: string, b: string, name: string)
    requires a != b && !Shadows(a, b) && !Shadows(b, a)
    ensures !(Owned(a, name) && Owned(b, name))
    ensures !Owned(a, ResourceName(b))
  {
    OwnedByPrefix(a, name);
    OwnedByPrefix(b, name);
    if Owned(a, name) && Owned(b, name) {
      var s := !(ResourceName(a) + Infix(false) <= name);
      var t := !(ResourceName(b) + Infix(false) <= name);
      CommonName(a, s, b, t, name);
    }
    OwnedStripped(a, b);
    assert b <= b + "-";
  }
}
