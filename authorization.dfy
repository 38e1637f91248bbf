/** The request authoriser: path normalisation, the verb-to-flag decision and the middleware itself. */
module Authorization {
  import opened Wrappers
  import opened Strings
  import opened Entities
  import opened AuthorizationCache

  /** The path looked up in the cache: everything before the last `/`, unless that `/` is the first character. */
  function NormalizePath(path: string): (r: string)
    ensures (exists i :: 0 < i < |path| && path[i] == '/') ==>
      && 0 < |r| < |path| && r == path[..|r|] && path[|r|] == '/'
      && forall i :: |r| < i < |path| ==> path[i] != '/'
    ensures (forall i :: 0 < i < |path| ==> path[i] != '/') ==> r == path
  {
    var last := LastIndexOf(path, '/');
    if last > 0 then path[..last] else path
  }

  /** Cutting the last segment off and putting it back gives the request path. */
  lemma NormalizeStripsOneSegment(path: string)
    requires exists i :: 0 < i < |path| && path[i] == '/'
    ensures var r := NormalizePath(path);
      path == r + "/" + path[|r| + 1..] && '/' !in path[|r| + 1..]
  {
    var r := NormalizePath(path);
    assert path == r + "/" + path[|r| + 1..];
    var tail := path[|r| + 1..];
    forall j | 0 <= j < |tail|
      ensures tail[j] != '/'
    {
      assert tail[j] == path[|r| + 1 + j];
    }
  }

  /** The three examples of the comment: `/users/4` and `/users` look up `/users`, `/users/4/edit` looks up `/users/4`. */
  lemma NormalizeExamples()
    ensures NormalizePath("/users/4") == "/users"
    ensures NormalizePath("/users") == "/users"
    ensures NormalizePath("/users/4/edit") == "/users/4"
  {
    assert "/users/4"[6] == '/';
    assert "/users/4/edit"[8] == '/';
  }

  /** The `switch` on the request method, after a null permission has already been refused. */
  function Decide(permission: Option<ResourcePermission>, verb: string): (authorized: bool)
    ensures permission.None? ==> !authorized
    ensures permission.Some? && verb == "GET" ==> authorized
    ensures permission.Some? && verb == "POST" ==> (authorized <==> permission.value.write)
    ensures permission.Some? && (verb == "PUT" || verb == "PATCH") ==> (authorized <==> permission.value.update)
    ensures permission.Some? && verb == "DELETE" ==> (authorized <==> permission.value.del)
    ensures verb !in {"GET", "POST", "PUT", "PATCH", "DELETE"} ==> !authorized
  {
    match permission
    case None => false
    case Some(p) =>
      if verb == "GET" then true
      else if verb == "POST" then p.write
      else if verb == "PUT" then p.update
      else if verb == "PATCH" then p.update
      else if verb == "DELETE" then p.del
      else false
  }

  datatype Outcome = Forbidden | Next

  /** authorize: 403 unless the cache holds a permission for the normalised path whose mapped flag is true. */
  method Authorize(cache: Cache, userId: nat, verb: string, path: string) returns (outcome: Outcome)
    ensures outcome == Next <==> Decide(ResourceLookup(cache.auth, userId, NormalizePath(path)), verb)
  {
    var resource := NormalizePath(path);
    var permission := cache.GetUserRolesFromResource(userId, resource);
    if permission.None? {
      return Forbidden;
    }
    var authorized := Decide(permission, verb);
    if !authorized {
      return Forbidden;
    }
    return Next;
  }

  /** After a rebuild from the tables, a GET is let through iff some tuple of the user has a resource ending with the path. */
  lemma GetAfterRebuild(t: Tables, userId: nat, path: string)
    requires WellFormed(t) && ':' !in path
    ensures var resource := NormalizePath(path);
      Decide(ResourceLookup(Projection(t), userId, resource), "GET") <==>
        exists p :: p in UserRepository.GetUsersPermissions(t) && p.idUser == userId && EndsWith(p.resource, resource)
  {
    var resource := NormalizePath(path);
    assert ':' !in resource by {
      assert forall c :: c in resource ==> c in path;
    }
    LookupAgainstTables(t, userId, resource);
  }
}
