/**
 * The browser's authentication context: the signed-in user's data, the
 * sign-in and sign-out transitions, and the permission lookup the pages use.
 */
module AuthContext {
  import opened Wrappers
  import opened Strings
  import opened Entities
  import Authorization

  datatype AuthUser = AuthUser(id: nat, name: string, email: string, permissions: seq<ResourcePermission>)

  /** What the login answer carries: the user with its permissions, and the token. */
  datatype UserAuthData = UserAuthData(user: AuthUser, token: string)

  /**
   * The base resource of a page path: when a `/` occurs after the first
   * character, everything from the first such `/` on is dropped (the second
   * slash of the path, not the last one as on the server).
   */
  function BaseResource(path: string): (r: string)
    ensures |r| <= |path| && r == path[..|r|]
    ensures |path| > 0 ==> |r| > 0
    ensures forall i :: 0 < i < |r| ==> r[i] != '/'
    ensures |r| < |path| ==> path[|r|] == '/'
  {
    if LastIndexOf(path, '/') > 0 then path[..IndexOfFrom(path, '/', 1)] else path
  }

  /** A path that names a record or a sub-page is looked up by its first segment. */
  lemma BaseResourceExamples()
    ensures BaseResource("/users/5") == "/users"
    ensures BaseResource("/users/5/edit") == "/users"
    ensures BaseResource("/users") == "/users"
  {
    assert "/users/5"[6] == '/';
    assert "/users/5/edit"[6] == '/';
  }

  /** The browser and the server look up the same resource when the path has at most one `/` after its first character. */
  lemma ClientAgreesWithServerOnShortPaths(path: string)
    requires forall i, j :: 0 < i < |path| && 0 < j < |path| && path[i] == '/' && path[j] == '/' ==> i == j
    ensures BaseResource(path) == Authorization.NormalizePath(path)
  {
    var r := BaseResource(path);
    var s := Authorization.NormalizePath(path);
    if exists i :: 0 < i < |path| && path[i] == '/' {
      var i :| 0 < i < |path| && path[i] == '/';
      assert |r| < |path| by {
        assert path[..|path|] == path;
      }
      assert |r| == |s|;
    }
  }

  /** On a deeper path they differ: the browser keeps one segment, the server all but the last. */
  lemma ClientDiffersFromServerOnDeepPaths()
    ensures BaseResource("/users/4/edit") == "/users"
    ensures Authorization.NormalizePath("/users/4/edit") == "/users/4"
  {
    assert "/users/4/edit"[6] == '/';
    Authorization.NormalizeExamples();
  }

  /** `permissions.find(p => p.resource === base)`: the first permission on exactly that resource. */
  function FindPermission(permissions: seq<ResourcePermission>, base: string): (r: Option<ResourcePermission>)
    ensures r.Some? ==> exists i :: 0 <= i < |permissions| && permissions[i] == r.value && r.value.resource == base &&
                                   forall j :: 0 <= j < i ==> permissions[j].resource != base
    ensures r.None? <==> forall i :: 0 <= i < |permissions| ==> permissions[i].resource != base
  {
    if |permissions| == 0 then None
    else if permissions[0].resource == base then Some(permissions[0])
    else
      var rest := FindPermission(permissions[1..], base);
      assert forall i :: 1 <= i < |permissions| ==> permissions[1..][i - 1] == permissions[i];
      rest
  }

  /** getResoucePermissions: null without a signed-in user, else the first permission on the page's base resource. */
  function LookupPermissions(loginData: Option<UserAuthData>, path: string): (r: Option<ResourcePermission>)
    ensures loginData.None? ==> r.None?
    ensures r.Some? ==> r.value in loginData.value.user.permissions && r.value.resource == BaseResource(path)
    ensures loginData.Some? && r.None? <==>
      loginData.Some? && forall p :: p in loginData.value.user.permissions ==> p.resource != BaseResource(path)
  {
    if loginData.None? then None
    else FindPermission(loginData.value.user.permissions, BaseResource(path))
  }

  /** With one entry per resource, as the login answer has, the first match is the only one. */
  lemma LookupUnique(permissions: seq<ResourcePermission>, path: string, p: ResourcePermission)
    requires forall i, j :: 0 <= i < j < |permissions| ==> permissions[i].resource != permissions[j].resource
    requires p in permissions && p.resource == BaseResource(path)
    ensures FindPermission(permissions, BaseResource(path)) == Some(p)
  {
    var r := FindPermission(permissions, BaseResource(path));
    var k :| 0 <= k < |permissions| && permissions[k] == p;
    var i :| 0 <= i < |permissions| && permissions[i] == r.value && r.value.resource == BaseResource(path) &&
             forall j :: 0 <= j < i ==> permissions[j].resource != BaseResource(path);
    if i < k {
      assert permissions[i].resource != permissions[k].resource;
    } else if k < i {
      assert permissions[k].resource != permissions[i].resource;
    }
  }

  /** The context provider's state. */
  class Context {
    var loginData: Option<UserAuthData>

    /** The provider starts from what the browser session held, if anything. */
    constructor (session: Option<UserAuthData>)
      ensures loginData == session
    {
      loginData := session;
    }

    predicate IsAuthenticated()
      reads this
    {
      loginData.Some?
    }

    method Signup(user: UserAuthData)
      modifies this
      ensures loginData == Some(user) && IsAuthenticated()
    {
      loginData := Some(user);
    }

    method Logout()
      modifies this
      ensures loginData == None && !IsAuthenticated()
    {
      loginData := None;
    }

    method GetResourcePermissions(path: string) returns (r: Option<ResourcePermission>)
      ensures r == LookupPermissions(loginData, path)
      ensures !IsAuthenticated() ==> r.None?
    {
      r := LookupPermissions(loginData, path);
    }
  }
}
