/**
 * The user repository: the login lookup, the e-mail and id existence checks,
 * and the permission join that feeds the authorisation cache.
 */
module UserRepository {
  import opened Wrappers
  import opened Entities
  import Seqs

  /** getUserLoginData: the (first) user row with this e-mail whose `blocked` is false. */
  function GetUserLoginData(users: seq<User>, email: string): (r: Option<User>)
    ensures r.Some? ==> r.value in users && r.value.email == email && !r.value.blocked
    ensures r.None? <==> forall i :: 0 <= i < |users| ==> users[i].email != email || users[i].blocked
  {
    if |users| == 0 then None
    else if users[0].email == email && !users[0].blocked then Some(users[0])
    else GetUserLoginData(users[1..], email)
  }

  /** doesUserEmailExists: some user other than `userId` already has this e-mail. */
  function DoesUserEmailExists(users: seq<User>, email: string, userId: nat := 0): (r: bool)
    ensures r <==> exists i :: 0 <= i < |users| && users[i].email == email && users[i].id != userId
  {
    if |users| == 0 then false
    else (users[0].email == email && users[0].id != userId) || DoesUserEmailExists(users[1..], email, userId)
  }

  /** With generated ids (all positive) the default `userId = 0` excludes nobody. */
  lemma DefaultUserIdChecksEveryUser(t: Tables, email: string)
    requires EntityKeys(t)
    ensures DoesUserEmailExists(t.users, email) <==> exists i :: 0 <= i < |t.users| && t.users[i].email == email
  {
  }

  /** isUserExist: a user row with this id exists. */
  function IsUserExist(users: seq<User>, userId: nat): (r: bool)
    ensures r <==> exists i :: 0 <= i < |users| && users[i].id == userId
  {
    FindUser(users, userId).Some?
  }

  /** The conditions of the query's inner joins and of its `where` on one combination of rows. */
  predicate Joined(gu: GroupUser, gr: GroupResource, u: User, g: Group, r: Resource) {
    && gu.userId == u.id && gu.groupId == g.id
    && gr.groupId == g.id && gr.resourceId == r.id
    && !u.blocked && !g.blocked
  }

  /** The selected columns: `del` is the grant's `delete` column. */
  function Projected(u: User, g: Group, r: Resource, gr: GroupResource): Permission {
    Permission(u.id, r.name, g.id, gr.write, gr.update, gr.delete)
  }

  /** The query as a relation: some user, membership, group, grant and resource join into `p`. */
  ghost predicate Reachable(t: Tables, p: Permission) {
    exists gu, gr, u, g, r ::
      && gu in t.groupUsers && gr in t.groupResources
      && u in t.users && g in t.groups && r in t.resources
      && Joined(gu, gr, u, g, r) && p == Projected(u, g, r, gr)
  }

  /** The row a membership and a grant produce, resolving the three ids by primary key. */
  function JoinRow(t: Tables, gu: GroupUser, gr: GroupResource): Option<Permission> {
    if gu.groupId != gr.groupId then None
    else
      match (FindUser(t.users, gu.userId), FindGroup(t.groups, gu.groupId), FindResource(t.resources, gr.resourceId))
      case (Some(u), Some(g), Some(r)) =>
        if !u.blocked && !g.blocked then Some(Projected(u, g, r, gr)) else None
      case _ => None
  }

  function RowOf(row: Option<Permission>): seq<Permission> {
    match row
    case Some(p) => [p]
    case None => []
  }

  /** The rows of one membership against a list of grants. */
  function JoinGrants(t: Tables, gu: GroupUser, grs: seq<GroupResource>): (rows: seq<Permission>)
    ensures forall p :: p in rows <==> exists j :: 0 <= j < |grs| && JoinRow(t, gu, grs[j]) == Some(p)
  {
    if |grs| == 0 then []
    else
      var rest := JoinGrants(t, gu, grs[..|grs| - 1]);
      assert forall j :: 0 <= j < |grs| - 1 ==> grs[..|grs| - 1][j] == grs[j];
      rest + RowOf(JoinRow(t, gu, grs[|grs| - 1]))
  }

  /** The rows of a list of memberships against every grant. */
  function JoinMemberships(t: Tables, gus: seq<GroupUser>): (rows: seq<Permission>)
    ensures forall p :: p in rows <==>
      exists i, j :: 0 <= i < |gus| && 0 <= j < |t.groupResources| && JoinRow(t, gus[i], t.groupResources[j]) == Some(p)
  {
    if |gus| == 0 then []
    else
      var rest := JoinMemberships(t, gus[..|gus| - 1]);
      assert forall i :: 0 <= i < |gus| - 1 ==> gus[..|gus| - 1][i] == gus[i];
      rest + JoinGrants(t, gus[|gus| - 1], t.groupResources)
  }

  predicate NoDuplicates<T(==)>(s: seq<T>) {
    forall i, j :: 0 <= i < j < |s| ==> s[i] != s[j]
  }

  /** SQL `distinct`: the same rows, each once, in first-occurrence order. */
  function Distinct<T(==,!new)>(s: seq<T>): (r: seq<T>)
    ensures NoDuplicates(r)
    ensures forall x :: x in r <==> x in s
  {
    if |s| == 0 then []
    else
      var d := Distinct(s[..|s| - 1]);
      assert forall x :: x in s[..|s| - 1] ==> x in s;
      assert forall x :: x in s ==> x in s[..|s| - 1] || x == s[|s| - 1];
      if s[|s| - 1] in d then d else d + [s[|s| - 1]]
  }

  /** getUsersPermissions: the distinct rows of the join of the five tables. */
  function GetUsersPermissions(t: Tables): seq<Permission> {
    Distinct(JoinMemberships(t, t.groupUsers))
  }

  lemma JoinRowSound(t: Tables, gu: GroupUser, gr: GroupResource, p: Permission)
    requires JoinRow(t, gu, gr) == Some(p)
    ensures exists u, g, r :: u in t.users && g in t.groups && r in t.resources &&
                             Joined(gu, gr, u, g, r) && p == Projected(u, g, r, gr)
  {
    var u := FindUser(t.users, gu.userId).value;
    var g := FindGroup(t.groups, gu.groupId).value;
    var r := FindResource(t.resources, gr.resourceId).value;
    assert Joined(gu, gr, u, g, r);
  }

  /** Soundness: every returned row comes from a membership and a grant of an unblocked user and group. */
  lemma PermissionsSound(t: Tables, p: Permission)
    requires p in GetUsersPermissions(t)
    ensures Reachable(t, p)
  {
    var i, j :| 0 <= i < |t.groupUsers| && 0 <= j < |t.groupResources| &&
                JoinRow(t, t.groupUsers[i], t.groupResources[j]) == Some(p);
    var gu, gr := t.groupUsers[i], t.groupResources[j];
    JoinRowSound(t, gu, gr, p);
    var u, g, r :| u in t.users && g in t.groups && r in t.resources &&
                   Joined(gu, gr, u, g, r) && p == Projected(u, g, r, gr);
    assert gu in t.groupUsers && gr in t.groupResources;
  }

  /** Completeness: every unblocked user-group-grant-resource path yields a row. */
  lemma PermissionsComplete(t: Tables, p: Permission)
    requires EntityKeys(t)
    requires Reachable(t, p)
    ensures p in GetUsersPermissions(t)
  {
    var gu, gr, u, g, r :|
      && gu in t.groupUsers && gr in t.groupResources
      && u in t.users && g in t.groups && r in t.resources
      && Joined(gu, gr, u, g, r) && p == Projected(u, g, r, gr);
    var i := Seqs.IndexOf(t.groupUsers, gu);
    var j := Seqs.IndexOf(t.groupResources, gr);
    var ui := Seqs.IndexOf(t.users, u);
    var gi := Seqs.IndexOf(t.groups, g);
    var ri := Seqs.IndexOf(t.resources, r);
    FindUserUnique(t.users, ui);
    FindGroupUnique(t.groups, gi);
    FindResourceUnique(t.resources, ri);
    assert JoinRow(t, gu, gr) == Some(p);
  }

  /** `distinct`: no row is returned twice. */
  lemma PermissionsDistinct(t: Tables)
    ensures NoDuplicates(GetUsersPermissions(t))
  {
  }

  /** A row's `write`/`update` come from the grant and its `del` from the grant's `delete` column. */
  lemma PermissionFlagsFromGrant(t: Tables, p: Permission)
    requires p in GetUsersPermissions(t)
    ensures exists gr :: gr in t.groupResources && gr.groupId == p.groupId &&
                        p.write == gr.write && p.update == gr.update && p.del == gr.delete
  {
    PermissionsSound(t, p);
  }

  /** Every fetched row comes from an unblocked user and an unblocked group. */
  lemma RowFromUnblocked(t: Tables, p: Permission)
    requires p in GetUsersPermissions(t)
    ensures exists ui :: 0 <= ui < |t.users| && t.users[ui].id == p.idUser && !t.users[ui].blocked
    ensures exists gi :: 0 <= gi < |t.groups| && t.groups[gi].id == p.groupId && !t.groups[gi].blocked
  {
    PermissionsSound(t, p);
    var gu, gr, u, g, r :|
      && gu in t.groupUsers && gr in t.groupResources
      && u in t.users && g in t.groups && r in t.resources
      && Joined(gu, gr, u, g, r) && p == Projected(u, g, r, gr);
    var ui := Seqs.IndexOf(t.users, u);
    var gi := Seqs.IndexOf(t.groups, g);
  }

  /** A blocked user contributes no row. */
  lemma BlockedUserExcluded(t: Tables, k: nat)
    requires EntityKeys(t) && k < |t.users| && t.users[k].blocked
    ensures forall p :: p in GetUsersPermissions(t) ==> p.idUser != t.users[k].id
  {
    forall p | p in GetUsersPermissions(t)
      ensures p.idUser != t.users[k].id
    {
      RowFromUnblocked(t, p);
      var ui :| 0 <= ui < |t.users| && t.users[ui].id == p.idUser && !t.users[ui].blocked;
      assert ui != k;
    }
  }

  /** A blocked group contributes no row. */
  lemma BlockedGroupExcluded(t: Tables, k: nat)
    requires EntityKeys(t) && k < |t.groups| && t.groups[k].blocked
    ensures forall p :: p in GetUsersPermissions(t) ==> p.groupId != t.groups[k].id
  {
    forall p | p in GetUsersPermissions(t)
      ensures p.groupId != t.groups[k].id
    {
      RowFromUnblocked(t, p);
      var gi :| 0 <= gi < |t.groups| && t.groups[gi].id == p.groupId && !t.groups[gi].blocked;
      assert gi != k;
    }
  }


  /** Databases with the same join paths fetch the same tuples. */
  lemma SameReachableSameRows(t1: Tables, t2: Tables)
    requires EntityKeys(t1) && EntityKeys(t2)
    requires forall p :: Reachable(t1, p) <==> Reachable(t2, p)
    ensures forall p :: p in GetUsersPermissions(t1) <==> p in GetUsersPermissions(t2)
  {
    forall p
      ensures p in GetUsersPermissions(t1) <==> p in GetUsersPermissions(t2)
    {
      if p in GetUsersPermissions(t1) {
        PermissionsSound(t1, p);
        PermissionsComplete(t2, p);
      }
      if p in GetUsersPermissions(t2) {
        PermissionsSound(t2, p);
        PermissionsComplete(t1, p);
      }
    }
  }
}
