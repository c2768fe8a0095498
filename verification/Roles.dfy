/** Role inheritance (pkg/security/decision.go:69-104, pkg/security/constants.go). */
module Roles {

  type Inheritance = map<string, seq<string>>

  function Children(table: Inheritance, role: string): seq<string> {
    if role in table then table[role] else []
  }

  /** `path` leads from its first role to its last, each a child of the one before. */
  ghost predicate IsPath(table: Inheritance, path: seq<string>) {
    path != [] && forall k :: 0 <= k < |path| - 1 ==> path[k + 1] in Children(table, path[k])
  }

  ghost predicate PathFromTo(table: Inheritance, path: seq<string>, a: string, b: string) {
    IsPath(table, path) && path[0] == a && path[|path| - 1] == b
  }

  /** The reflexive-transitive closure of the table. */
  ghost predicate Reaches(table: Inheritance, a: string, b: string) {
    exists path :: PathFromTo(table, path, a, b)
  }

  /** One step or more. */
  ghost predicate Below(table: Inheritance, a: string, b: string) {
    exists child :: child in Children(table, a) && Reaches(table, child, b)
  }

  ghost predicate Acyclic(table: Inheritance) {
    forall role :: !Below(table, role, role)
  }

  lemma ReachesSelf(table: Inheritance, a: string)
    ensures Reaches(table, a, a)
  {
    assert PathFromTo(table, [a], a, a);
  }

  lemma ReachesTransitive(table: Inheritance, a: string, b: string, c: string)
    requires Reaches(table, a, b) && Reaches(table, b, c)
    ensures Reaches(table, a, c)
  {
    var p :| PathFromTo(table, p, a, b);
    var q :| PathFromTo(table, q, b, c);
    var path := p + q[1..];
    forall k | 0 <= k < |path| - 1
      ensures path[k + 1] in Children(table, path[k])
    {
      if k == |p| - 1 {
        assert path[k] == q[0] && path[k + 1] == q[1];
      } else if k >= |p| {
        assert path[k] == q[k - |p| + 1] && path[k + 1] == q[k - |p| + 2];
      }
    }
    assert PathFromTo(table, path, a, c);
  }

  /** Reaching is standing still or going below. */
  lemma ReachesUnfold(table: Inheritance, a: string, b: string)
    ensures Reaches(table, a, b) <==> a == b || Below(table, a, b)
  {
    if Reaches(table, a, b) {
      var p :| PathFromTo(table, p, a, b);
      if |p| > 1 {
        assert p[1] in Children(table, a);
        assert PathFromTo(table, p[1..], p[1], b);
      }
    } else if a == b {
      ReachesSelf(table, a);
    }
    if Below(table, a, b) {
      var child :| child in Children(table, a) && Reaches(table, child, b);
      assert PathFromTo(table, [a, child], a, child);
      ReachesTransitive(table, a, child, b);
    }
  }

  /** Every role that is anyone's child. */
  ghost function Listed(table: Inheritance): set<string> {
    set a, b | a in table && b in table[a] :: b
  }

  lemma {:induction false} BelowIsListed(table: Inheritance, a: string, b: string)
    requires Below(table, a, b)
    ensures b in Listed(table)
  {
    var child :| child in Children(table, a) && Reaches(table, child, b);
    var p :| PathFromTo(table, p, child, b);
    if |p| > 1 {
      assert p[|p| - 1] in Children(table, p[|p| - 2]);
    }
  }

  /** Everything below some role of the list: the measure by which the expansion ends. */
  ghost function AllBelow(table: Inheritance, roles: seq<string>): set<string> {
    set b | b in Listed(table) && exists a :: a in roles && Below(table, a, b)
  }

  /** Acyclicity makes each child's set strictly smaller. */
  lemma ChildShrinks(table: Inheritance, roles: seq<string>, role: string, child: string)
    requires Acyclic(table) && role in roles && child in Children(table, role)
    ensures AllBelow(table, [child]) < AllBelow(table, roles)
  {
    ReachesSelf(table, child);
    assert Below(table, role, child);
    BelowIsListed(table, role, child);
    forall b | b in AllBelow(table, [child])
      ensures b in AllBelow(table, roles)
    {
      ReachesUnfold(table, child, b);
      assert Below(table, role, b);
    }
    assert child !in AllBelow(table, [child]);
  }

  /** What expansion means: exactly the roles reachable from the list. */
  ghost predicate Expands(table: Inheritance, roles: seq<string>, x: string) {
    exists a :: a in roles && Reaches(table, a, x)
  }

  /** `expandRoles`. */
  method ExpandRoles(inheritance: Inheritance, roles: seq<string>) returns (expanded: seq<string>)
    requires Acyclic(inheritance)
    ensures forall x :: x in expanded <==> Expands(inheritance, roles, x)
    decreases AllBelow(inheritance, roles)
  {
    expanded := roles;
    for i := 0 to |roles|
      invariant forall x :: x in expanded <==> x in roles || exists k :: 0 <= k < i && Below(inheritance, roles[k], x)
    {
      var role := roles[i];
      ghost var before := expanded;
      if role in inheritance {
        var children := inheritance[role];
        for j := 0 to |children|
          invariant forall x ::
              x in expanded <==> x in before || exists k :: 0 <= k < j && Reaches(inheritance, children[k], x)
        {
          var element := children[j];
          ReachesSelf(inheritance, element);
          if element !in roles {
            expanded := expanded + [element];
          }
          ChildShrinks(inheritance, roles, role, element);
          var more := ExpandRoles(inheritance, [element]);
          assert forall x :: x in more <==> Reaches(inheritance, element, x) by {
            assert forall x :: Expands(inheritance, [element], x) <==> Reaches(inheritance, element, x) by {
              assert element in [element];
            }
          }
          expanded := expanded + more;
        }
      }
    }
    forall x
      ensures x in expanded <==> Expands(inheritance, roles, x)
    {
      ExpandedIsReachable(inheritance, roles, x);
    }
  }

  lemma ExpandedIsReachable(table: Inheritance, roles: seq<string>, x: string)
    ensures Expands(table, roles, x) <==> x in roles || exists k :: 0 <= k < |roles| && Below(table, roles[k], x)
  {
    forall a | a in roles
      ensures Reaches(table, a, x) <==> a == x || Below(table, a, x)
    {
      ReachesUnfold(table, a, x);
    }
  }
}
