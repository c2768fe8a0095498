/** Access decisions (pkg/security/decision.go, pkg/security/model.go:49-65, pkg/users/model.go:101-114). */
module Decision {
  import opened Options
  import opened Roles
  import BackupWindow

  const ROLE_USER_MANAGER := "userManager"
  const ROLE_COLLECTION_MANAGER := "collectionManager"
  const ROLE_BACKUP_DOWNLOADER := "backupDownloader"
  const ROLE_BACKUP_UPLOADER := "backupUploader"
  const ROLE_UPLOADS_ANYTIME := "uploadsAnytime"
  const ROLE_SYS_ADMIN := "systemAdmin"

  const ACTION_DOWNLOAD := "file.download"
  const ACTION_UPLOAD := "file.upload"
  const ACTION_UPLOAD_ANYTIME := "file.upload-anytime"
  const ACTION_VIEW_PROFILE := "profile.view"

  /** `GetRolesInheritance`. */
  const INHERITANCE: Inheritance := map[
    ROLE_SYS_ADMIN := [ROLE_USER_MANAGER, ROLE_COLLECTION_MANAGER],
    ROLE_COLLECTION_MANAGER := [ROLE_BACKUP_DOWNLOADER, ROLE_BACKUP_DOWNLOADER, ROLE_UPLOADS_ANYTIME]
  ]

  /** `GetRolesActions`. */
  const ROLE_ACTIONS: map<string, seq<string>> := map[
    ROLE_BACKUP_DOWNLOADER := [ACTION_DOWNLOAD],
    ROLE_BACKUP_UPLOADER := [ACTION_UPLOAD],
    ROLE_UPLOADS_ANYTIME := [ACTION_UPLOAD, ACTION_UPLOAD_ANYTIME],
    ROLE_USER_MANAGER := [ACTION_VIEW_PROFILE]
  ]

  /** A table whose children all rank below their parents has no cycle. */
  lemma RankedIsAcyclic(table: Inheritance, rank: string -> int)
    requires forall a, b :: a in table && b in table[a] ==> rank(b) < rank(a)
    ensures Acyclic(table)
  {
    forall role | Below(table, role, role)
      ensures false
    {
      var child :| child in Children(table, role) && Reaches(table, child, role);
      var path :| PathFromTo(table, path, child, role);
      RankFalls(table, rank, path);
    }
  }

  lemma {:induction false} RankFalls(table: Inheritance, rank: string -> int, path: seq<string>)
    requires forall a, b :: a in table && b in table[a] ==> rank(b) < rank(a)
    requires IsPath(table, path)
    ensures rank(path[|path| - 1]) <= rank(path[0])
  {
    if |path| > 1 {
      assert path[1] in Children(table, path[0]);
      assert path[1..][|path| - 2] == path[|path| - 1];
      assert IsPath(table, path[1..]);
      RankFalls(table, rank, path[1..]);
    }
  }

  /** The configured inheritance has no cycle, so expansion always ends. */
  lemma InheritanceAcyclic()
    ensures Acyclic(INHERITANCE)
  {
    var rank := (r: string) => if r == ROLE_SYS_ADMIN then 2 else if r == ROLE_COLLECTION_MANAGER then 1 else 0;
    RankedIsAcyclic(INHERITANCE, rank);
  }

  /** Some listed role reaches a role that grants the action. */
  ghost predicate Permits(table: Inheritance, grants: map<string, seq<string>>, roles: seq<string>, action: string) {
    exists x :: Expands(table, roles, x) && x in grants && action in grants[x]
  }

  ghost predicate Permitted(roles: seq<string>, action: string) {
    Permits(INHERITANCE, ROLE_ACTIONS, roles, action)
  }

  /** `expandActions`. */
  method ExpandActions(grants: map<string, seq<string>>, roles: seq<string>) returns (actions: seq<string>)
    ensures forall a :: a in actions <==> exists r :: r in roles && r in grants && a in grants[r]
  {
    actions := [];
    for i := 0 to |roles|
      invariant forall a :: a in actions <==> exists k :: 0 <= k < i && roles[k] in grants && a in grants[roles[k]]
    {
      if roles[i] in grants {
        actions := actions + grants[roles[i]];
      }
    }
  }

  /** `CanThoseRolesPerformAction`, for any acyclic inheritance. */
  method CanRolesPerform(table: Inheritance, grants: map<string, seq<string>>, roles: seq<string>, action: string)
      returns (can: bool)
    requires Acyclic(table)
    ensures can <==> Permits(table, grants, roles, action)
  {
    var expanded := ExpandRoles(table, roles);
    var actions := ExpandActions(grants, expanded);
    return action in actions;
  }

  /** Order and repetition in a list of roles do not matter. */
  lemma PermitsBySet(table: Inheritance, grants: map<string, seq<string>>, roles: seq<string>, others: seq<string>,
      action: string)
    requires forall r :: r in roles <==> r in others
    ensures Permits(table, grants, roles, action) <==> Permits(table, grants, others, action)
  {
    forall x
      ensures Expands(table, roles, x) <==> Expands(table, others, x)
    {
    }
  }

  // ---------------------------------------------------------------- the layers of a decision

  /** An entry of an access control list, an access key or a session scope. */
  datatype Entry = Entry(name: string, objectType: string, roles: seq<string>)

  datatype Subject = Subject(id: string, typeName: string, acl: seq<Entry>)

  /** `accessKey` are the objects of the key used in the session, `scope` the limitations of its token. */
  datatype Actor = Actor(name: string, typeName: string, roles: seq<string>, accessKey: Option<seq<Entry>>,
    scope: Option<seq<Entry>>)

  predicate About(e: Entry, s: Subject) {
    e.objectType == s.typeName && e.name == s.id
  }

  ghost predicate AclAllows(acl: seq<Entry>, name: string, objectType: string, action: string) {
    exists e :: e in acl && e.name == name && e.objectType == objectType && Permitted(e.roles, action)
  }

  /** The key's first entry about the subject allows the action. */
  ghost predicate KeyAllows(objects: seq<Entry>, s: Subject, action: string) {
    exists i :: 0 <= i < |objects| && About(objects[i], s) && Permitted(objects[i].roles, action)
                && forall k :: 0 <= k < i ==> !About(objects[k], s)
  }

  /** The scope's last element about the subject allows the action. */
  ghost predicate ScopeAllows(elements: seq<Entry>, s: Subject, action: string) {
    exists i :: 0 <= i < |elements| && About(elements[i], s) && Permitted(elements[i].roles, action)
                && forall k :: i < k < |elements| ==> !About(elements[k], s)
  }

  /** The decision in one formula. */
  ghost predicate Allowed(actor: Actor, subject: Option<Subject>, action: string) {
    match subject
    case None => Permitted(actor.roles, action)
    case Some(s) =>
      && (AclAllows(s.acl, actor.name, actor.typeName, action) || Permitted(actor.roles, action))
      && (actor.accessKey.Some? ==> KeyAllows(actor.accessKey.value, s, action))
      && (actor.scope.Some? && actor.scope.value != [] ==> ScopeAllows(actor.scope.value, s, action))
  }

  /** `AccessControlList.IsPermitted`. */
  method IsPermitted(acl: seq<Entry>, name: string, objectType: string, action: string) returns (ok: bool)
    ensures ok <==> AclAllows(acl, name, objectType, action)
  {
    InheritanceAcyclic();
    for i := 0 to |acl|
      invariant forall k :: 0 <= k < i ==>
        !(acl[k].name == name && acl[k].objectType == objectType && Permitted(acl[k].roles, action))
    {
      if acl[i].name == name && acl[i].objectType == objectType {
        var can := CanRolesPerform(INHERITANCE, ROLE_ACTIONS, acl[i].roles, action);
        if can {
          return true;
        }
      }
    }
    return false;
  }

  /** `GetAccessKeyRolesInContextOf`: the roles of the first matching object, or none. */
  method AccessKeyRoles(objects: seq<Entry>, s: Subject) returns (roles: seq<string>)
    ensures forall action :: Permitted(roles, action) <==> KeyAllows(objects, s, action)
  {
    for i := 0 to |objects|
      invariant forall k :: 0 <= k < i ==> !About(objects[k], s)
    {
      if About(objects[i], s) {
        return objects[i].roles;
      }
    }
    return [];
  }

  /** `DecideCanDo`. */
  method DecideCanDo(actor: Actor, subject: Option<Subject>, action: string) returns (allowed: bool)
    ensures allowed <==> Allowed(actor, subject, action)
  {
    InheritanceAcyclic();
    if subject.None? {
      allowed := CanRolesPerform(INHERITANCE, ROLE_ACTIONS, actor.roles, action);
      return;
    }
    var s := subject.value;
    if actor.accessKey.Some? {
      var scopedRoles := AccessKeyRoles(actor.accessKey.value, s);
      var can := CanRolesPerform(INHERITANCE, ROLE_ACTIONS, scopedRoles, action);
      if !can {
        return false;
      }
    }
    if actor.scope.Some? && |actor.scope.value| > 0 {
      var foundAllowing := ScopeVerdict(actor.scope.value, s, action);
      if !foundAllowing {
        return false;
      }
    }
    var objectSpecificDecision := IsPermitted(s.acl, actor.name, actor.typeName, action);
    var systemWideRoleDecision := CanRolesPerform(INHERITANCE, ROLE_ACTIONS, actor.roles, action);
    return objectSpecificDecision || systemWideRoleDecision;
  }

  /** The loop over the scope: each matching element overrides the ones before it. */
  method ScopeVerdict(elements: seq<Entry>, s: Subject, action: string) returns (foundAllowing: bool)
    ensures foundAllowing <==> ScopeAllows(elements, s, action)
  {
    InheritanceAcyclic();
    foundAllowing := false;
    for i := 0 to |elements|
      invariant foundAllowing <==> ScopeAllows(elements[..i], s, action)
    {
      ScopeStep(elements, i, s, action);
      if About(elements[i], s) {
        foundAllowing := CanRolesPerform(INHERITANCE, ROLE_ACTIONS, elements[i].roles, action);
      }
    }
    assert elements[..|elements|] == elements;
  }

  lemma ScopeStep(elements: seq<Entry>, i: nat, s: Subject, action: string)
    requires i < |elements|
    ensures ScopeAllows(elements[..i + 1], s, action)
       <==> if About(elements[i], s) then Permitted(elements[i].roles, action)
         else ScopeAllows(elements[..i], s, action)
  {
    var now, before := elements[..i + 1], elements[..i];
    assert now == before + [elements[i]];
    if About(elements[i], s) {
      assert now[i] == elements[i];
    } else {
      if ScopeAllows(before, s, action) {
        var k :| 0 <= k < |before| && About(before[k], s) && Permitted(before[k].roles, action)
                 && forall j :: k < j < |before| ==> !About(before[j], s);
        assert now[k] == before[k];
      }
      if ScopeAllows(now, s, action) {
        var k :| 0 <= k < |now| && About(now[k], s) && Permitted(now[k].roles, action)
                 && forall j :: k < j < |now| ==> !About(now[j], s);
        assert before[k] == now[k];
        assert forall j :: k < j < |before| ==> before[j] == now[j];
      }
    }
  }

  // ---------------------------------------------------------------- layer by layer

  /** A decision about no subject is one about the actor's own roles, whatever key and scope the session has. */
  lemma GlobalDecision(actor: Actor, action: string)
    ensures Allowed(actor, None, action) <==> Permitted(actor.roles, action)
  {
  }

  /** The entry of an access control list is about the actor. */
  predicate For(e: Entry, actor: Actor) {
    e.name == actor.name && e.objectType == actor.typeName
  }

  /**
   * Without key and scope: an entry for the actor in the subject's list suffices, so does a global role, and nothing
   * else.
   */
  lemma PlainDecision(actor: Actor, s: Subject, action: string)
    requires actor.accessKey.None? && actor.scope.None?
    ensures Permitted(actor.roles, action) ==> Allowed(actor, Some(s), action)
    ensures forall e :: e in s.acl && For(e, actor) && Permitted(e.roles, action) ==> Allowed(actor, Some(s), action)
    ensures Allowed(actor, Some(s), action) && !Permitted(actor.roles, action) ==>
              exists e :: e in s.acl && For(e, actor) && Permitted(e.roles, action)
  {
  }

  /** With an access key: what is allowed without it, and permitted by the key's first entry about the subject. */
  lemma KeyLayer(actor: Actor, key: seq<Entry>, i: nat, s: Subject, action: string)
    requires i < |key| && key[i].name == s.id && key[i].objectType == s.typeName
    requires forall k :: 0 <= k < i ==> key[k].name != s.id || key[k].objectType != s.typeName
    ensures Allowed(actor.(accessKey := Some(key)), Some(s), action)
       <==> Allowed(actor.(accessKey := None), Some(s), action) && Permitted(key[i].roles, action)
  {
    assert About(key[i], s);
  }

  /** A key that says nothing about the subject refuses everything, also to an administrator. */
  lemma KeyWithoutEntry(actor: Actor, key: seq<Entry>, s: Subject, action: string)
    requires forall e :: e in key ==> e.name != s.id || e.objectType != s.typeName
    ensures !Allowed(actor.(accessKey := Some(key)), Some(s), action)
  {
  }

  /** With a session scope: what is allowed without it, and permitted by the scope's last element about the subject. */
  lemma ScopeLayer(actor: Actor, scope: seq<Entry>, i: nat, s: Subject, action: string)
    requires i < |scope| && scope[i].name == s.id && scope[i].objectType == s.typeName
    requires forall k :: i < k < |scope| ==> scope[k].name != s.id || scope[k].objectType != s.typeName
    ensures Allowed(actor.(scope := Some(scope)), Some(s), action)
       <==> Allowed(actor.(scope := None), Some(s), action) && Permitted(scope[i].roles, action)
  {
    assert About(scope[i], s);
  }

  /** A scope that says nothing about the subject refuses everything; an empty one is no scope at all. */
  lemma ScopeWithoutElement(actor: Actor, scope: seq<Entry>, s: Subject, action: string)
    requires forall e :: e in scope ==> e.name != s.id || e.objectType != s.typeName
    ensures if scope == [] then Allowed(actor.(scope := Some([])), Some(s), action)
            <==> Allowed(actor.(scope := None), Some(s), action)
            else !Allowed(actor.(scope := Some(scope)), Some(s), action)
  {
  }

  // ---------------------------------------------------------------- what follows

  /** Logging in with an access key, or with a scope, never grants what the plain account is refused. */
  lemma LimitationsOnlyLimit(actor: Actor, key: Option<seq<Entry>>, scope: Option<seq<Entry>>, subject: Option<Subject>,
      action: string)
    requires actor.accessKey.None? && (actor.scope.None? || actor.scope.value == [])
    ensures Allowed(actor.(accessKey := key, scope := scope), subject, action) ==> Allowed(actor, subject, action)
  {
  }

  /** Any order of the same scope elements. */
  ghost predicate OrderIrrelevant(elements: seq<Entry>, s: Subject, action: string) {
    forall others: seq<Entry> :: multiset(others) == multiset(elements) ==>
      (ScopeAllows(others, s, action) <==> ScopeAllows(elements, s, action))
  }

  lemma {:induction false} LastMatch(elements: seq<Entry>, s: Subject, e: Entry) returns (i: nat)
    requires e in elements && About(e, s)
    ensures i < |elements| && About(elements[i], s) && forall k :: i < k < |elements| ==> !About(elements[k], s)
  {
    var last := |elements| - 1;
    if About(elements[last], s) {
      i := last;
    } else {
      assert elements == elements[..last] + [elements[last]];
      i := LastMatch(elements[..last], s, e);
    }
  }

  /** When the elements about a subject agree, the verdict is theirs. */
  lemma AgreedVerdict(elements: seq<Entry>, s: Subject, action: string)
    requires forall d, e :: d in elements && e in elements && About(d, s) && About(e, s) ==>
             (Permitted(d.roles, action) <==> Permitted(e.roles, action))
    ensures ScopeAllows(elements, s, action) <==> exists e :: e in elements && About(e, s) && Permitted(e.roles, action)
  {
    if e :| e in elements && About(e, s) && Permitted(e.roles, action) {
      var i := LastMatch(elements, s, e);
      assert elements[i] in elements;
    }
  }

  /**
   * The order of a session scope matters exactly when it holds two elements about the subject that disagree, which a
   * scope that names no subject twice never does.
   */
  lemma ScopeOrderIff(elements: seq<Entry>, s: Subject, action: string)
    ensures OrderIrrelevant(elements, s, action)
       <==> forall d, e :: d in elements && e in elements && About(d, s) && About(e, s) ==>
         (Permitted(d.roles, action) <==> Permitted(e.roles, action))
  {
    if forall d, e :: d in elements && e in elements && About(d, s) && About(e, s) ==>
      (Permitted(d.roles, action) <==> Permitted(e.roles, action)) {
      forall others: seq<Entry> | multiset(others) == multiset(elements)
        ensures ScopeAllows(others, s, action) <==> ScopeAllows(elements, s, action)
      {
        assert forall e :: e in others <==> e in multiset(others);
        assert forall e :: e in elements <==> e in multiset(elements);
        AgreedVerdict(elements, s, action);
        AgreedVerdict(others, s, action);
      }
    } else {
      var d, e :| d in elements && e in elements && About(d, s) && About(e, s) && Permitted(d.roles, action)
        && !Permitted(e.roles, action);
      var dLast := MovedToEnd(elements, d);
      var eLast := MovedToEnd(elements, e);
      assert ScopeAllows(dLast, s, action) && !ScopeAllows(eLast, s, action);
    }
  }

  lemma MovedToEnd(elements: seq<Entry>, e: Entry) returns (others: seq<Entry>)
    requires e in elements
    ensures others != [] && others[|others| - 1] == e && multiset(others) == multiset(elements)
  {
    var i :| 0 <= i < |elements| && elements[i] == e;
    others := elements[..i] + elements[i + 1..] + [e];
    assert elements == elements[..i] + [e] + elements[i + 1..];
  }

  lemma AnytimeGrantsUpload(roles: seq<string>)
    requires Permitted(roles, ACTION_UPLOAD_ANYTIME)
    ensures Permitted(roles, ACTION_UPLOAD)
  {
    var x :| Expands(INHERITANCE, roles, x) && x in ROLE_ACTIONS && ACTION_UPLOAD_ANYTIME in ROLE_ACTIONS[x];
    assert x == ROLE_UPLOADS_ANYTIME;
    assert ACTION_UPLOAD == ROLE_ACTIONS[x][0];
  }

  /** Whoever may upload at any time may upload, for every actor, subject, key and scope. */
  lemma AnytimeImpliesUpload(actor: Actor, subject: Option<Subject>)
    requires Allowed(actor, subject, ACTION_UPLOAD_ANYTIME)
    ensures Allowed(actor, subject, ACTION_UPLOAD)
  {
    forall roles: seq<string> | Permitted(roles, ACTION_UPLOAD_ANYTIME)
      ensures Permitted(roles, ACTION_UPLOAD)
    {
      AnytimeGrantsUpload(roles);
    }
  }

  /** A list of roles permits what one of them permits. */
  lemma PermitsUnion(roles: seq<string>, action: string)
    ensures Permitted(roles, action) <==> exists r :: r in roles && Permitted([r], action)
  {
    forall r, x | r in roles && Expands(INHERITANCE, [r], x)
      ensures Expands(INHERITANCE, roles, x)
    {
    }
    if Permitted(roles, action) {
      var x :| Expands(INHERITANCE, roles, x) && x in ROLE_ACTIONS && action in ROLE_ACTIONS[x];
      var r :| r in roles && Reaches(INHERITANCE, r, x);
      assert Expands(INHERITANCE, [r], x);
      assert Permitted([r], action);
    }
  }

  /** What each role lets one do, inherited roles included. */
  function ActionsOf(role: string): set<string> {
    if role == ROLE_SYS_ADMIN then {ACTION_DOWNLOAD, ACTION_UPLOAD, ACTION_UPLOAD_ANYTIME, ACTION_VIEW_PROFILE}
    else if role == ROLE_COLLECTION_MANAGER then {ACTION_DOWNLOAD, ACTION_UPLOAD, ACTION_UPLOAD_ANYTIME}
    else if role == ROLE_UPLOADS_ANYTIME then {ACTION_UPLOAD, ACTION_UPLOAD_ANYTIME}
    else if role == ROLE_BACKUP_UPLOADER then {ACTION_UPLOAD}
    else if role == ROLE_BACKUP_DOWNLOADER then {ACTION_DOWNLOAD}
    else if role == ROLE_USER_MANAGER then {ACTION_VIEW_PROFILE}
    else {}
  }

  function Granted(role: string): set<string> {
    if role in ROLE_ACTIONS then set a | a in ROLE_ACTIONS[role] else {}
  }

  ghost predicate InheritedFrom(role: string, action: string) {
    exists child :: child in Children(INHERITANCE, role) && Permitted([child], action)
  }

  /** What a role permits is what it grants and what its children permit. */
  lemma PermittedStep(role: string, action: string)
    ensures Permitted([role], action) <==> action in Granted(role) || InheritedFrom(role, action)
  {
    if Permitted([role], action) {
      var x :| Expands(INHERITANCE, [role], x) && x in ROLE_ACTIONS && action in ROLE_ACTIONS[x];
      ReachesUnfold(INHERITANCE, role, x);
      if x != role {
        var child :| child in Children(INHERITANCE, role) && Reaches(INHERITANCE, child, x);
        assert child in [child] && Expands(INHERITANCE, [child], x);
        assert Permitted([child], action);
      }
    }
    if action in Granted(role) {
      ReachesSelf(INHERITANCE, role);
      assert role in [role] && Expands(INHERITANCE, [role], role);
    }
    if child :| child in Children(INHERITANCE, role) && Permitted([child], action) {
      var x :| Expands(INHERITANCE, [child], x) && x in ROLE_ACTIONS && action in ROLE_ACTIONS[x];
      assert Reaches(INHERITANCE, child, x);
      ReachesUnfold(INHERITANCE, role, x);
      assert role in [role] && Expands(INHERITANCE, [role], x);
    }
  }

  lemma LeafRole(role: string, action: string)
    requires role !in INHERITANCE
    ensures Permitted([role], action) <==> action in Granted(role)
  {
    PermittedStep(role, action);
  }

  lemma LeafActions(role: string)
    requires role !in INHERITANCE
    ensures Granted(role) == ActionsOf(role)
  {
    assert ROLE_ACTIONS[ROLE_BACKUP_DOWNLOADER] == [ACTION_DOWNLOAD]
      && ROLE_ACTIONS[ROLE_BACKUP_UPLOADER] == [ACTION_UPLOAD];
    assert ROLE_ACTIONS[ROLE_UPLOADS_ANYTIME] == [ACTION_UPLOAD, ACTION_UPLOAD_ANYTIME];
    assert ROLE_ACTIONS[ROLE_USER_MANAGER] == [ACTION_VIEW_PROFILE];
  }

  lemma CollectionManagerActions(action: string)
    ensures Permitted([ROLE_COLLECTION_MANAGER], action) <==> action in ActionsOf(ROLE_COLLECTION_MANAGER)
  {
    PermittedStep(ROLE_COLLECTION_MANAGER, action);
    var children := Children(INHERITANCE, ROLE_COLLECTION_MANAGER);
    assert children[0] == ROLE_BACKUP_DOWNLOADER && children[2] == ROLE_UPLOADS_ANYTIME;
    LeafRole(ROLE_BACKUP_DOWNLOADER, action);
    LeafActions(ROLE_BACKUP_DOWNLOADER);
    LeafRole(ROLE_UPLOADS_ANYTIME, action);
    LeafActions(ROLE_UPLOADS_ANYTIME);
  }

  /** Exactly which actions a role permits, for every role there is and any other string. */
  lemma RolePermitsExactly(role: string, action: string)
    ensures Permitted([role], action) <==> action in ActionsOf(role)
  {
    if role == ROLE_COLLECTION_MANAGER {
      CollectionManagerActions(action);
    } else if role == ROLE_SYS_ADMIN {
      PermittedStep(role, action);
      CollectionManagerActions(action);
      LeafRole(ROLE_USER_MANAGER, action);
      LeafActions(ROLE_USER_MANAGER);
      var children := Children(INHERITANCE, role);
      assert children[0] == ROLE_USER_MANAGER && children[1] == ROLE_COLLECTION_MANAGER;
    } else {
      LeafRole(role, action);
      LeafActions(role);
    }
  }

  /** A system administrator may do everything there is to do. */
  lemma SystemAdminPermitted(roles: seq<string>, action: string)
    requires ROLE_SYS_ADMIN in roles
    requires action in [ACTION_DOWNLOAD, ACTION_UPLOAD, ACTION_UPLOAD_ANYTIME, ACTION_VIEW_PROFILE]
    ensures Permitted(roles, action)
  {
    PermitsUnion(roles, action);
    RolePermitsExactly(ROLE_SYS_ADMIN, action);
  }

  /** The gate in front of an upload (pkg/http/collection.go:31-49). */
  method UploadGate(actor: Actor, collection: Subject, windows: seq<BackupWindow.Window>, now: int) returns (ok: bool)
    requires forall w :: w in windows ==> BackupWindow.IsSchedule(w.next)
    ensures ok <==> || Allowed(actor, Some(collection), ACTION_UPLOAD_ANYTIME)
                    || (Allowed(actor, Some(collection), ACTION_UPLOAD)
                        && (windows == [] || exists w :: w in windows && BackupWindow.Open(w, now)))
  {
    if Allowed(actor, Some(collection), ACTION_UPLOAD_ANYTIME) {
      AnytimeImpliesUpload(actor, Some(collection));
    }
    var canUpload := DecideCanDo(actor, Some(collection), ACTION_UPLOAD);
    if !canUpload {
      return false;
    }
    var windowOpen := BackupWindow.IsUploadAllowed(windows, now);
    if !windowOpen {
      ok := DecideCanDo(actor, Some(collection), ACTION_UPLOAD_ANYTIME);
      return;
    }
    return true;
  }
}
