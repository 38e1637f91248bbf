/**
 * The authorisation cache: the Redis hash `auth` that maps
 * `"{idUser}:{groupId}:{resource}"` to the `{write, update, del}` flags of
 * one permission tuple, its rebuild from the database, and its two lookups.
 */
module AuthorizationCache {
  import opened Wrappers
  import opened Strings
  import opened Entities
  import opened UserRepository

  /** The hash field of one permission tuple. */
  function Key(p: Permission): string {
    NatToString(p.idUser) + ":" + NatToString(p.groupId) + ":" + p.resource
  }

  /** A key determines the user, the group and the resource of its tuple. */
  lemma KeyInjective(p: Permission, q: Permission)
    requires Key(p) == Key(q)
    ensures p.idUser == q.idUser && p.groupId == q.groupId && p.resource == q.resource
  {
    var gp := NatToString(p.groupId) + ":" + p.resource;
    var gq := NatToString(q.groupId) + ":" + q.resource;
    assert Key(p) == NatToString(p.idUser) + ":" + gp;
    assert Key(q) == NatToString(q.idUser) + ":" + gq;
    DigitPrefixSplit(NatToString(p.idUser), NatToString(q.idUser), gp, gq);
    DigitPrefixSplit(NatToString(p.groupId), NatToString(q.groupId), p.resource, q.resource);
    NatToStringInjective(p.idUser, q.idUser);
    NatToStringInjective(p.groupId, q.groupId);
  }

  /** The two HSCAN MATCH patterns: `{idUser}:*{resource}` and `{idUser}:*:*`. */
  datatype Pattern = ResourcePattern(idUser: nat, resource: string) | UserPattern(idUser: nat)

  /** The literal both patterns begin with. */
  function UserPrefix(idUser: nat): string {
    NatToString(idUser) + ":"
  }

  /** Glob matching of a hash field against one of the two patterns. */
  predicate Matches(field: string, pat: Pattern) {
    var prefix := UserPrefix(pat.idUser);
    && StartsWith(field, prefix)
    && match pat
       case ResourcePattern(_, resource) => |prefix| + |resource| <= |field| && EndsWith(field, resource)
       case UserPattern(_) => ':' in field[|prefix|..]
  }

  /** A field that begins with `{a}:` and with `{b}:` for numbers `a`, `b` has `a == b`. */
  lemma PrefixesDetermineUser(field: string, a: nat, b: nat)
    requires StartsWith(field, UserPrefix(a)) && StartsWith(field, UserPrefix(b))
    ensures a == b
  {
    var sa, sb := NatToString(a), NatToString(b);
    assert field == sa + ":" + field[|sa| + 1..] by {
      assert field[..|sa| + 1] == sa + ":";
    }
    assert field == sb + ":" + field[|sb| + 1..] by {
      assert field[..|sb| + 1] == sb + ":";
    }
    DigitPrefixSplit(sa, sb, field[|sa| + 1..], field[|sb| + 1..]);
    NatToStringInjective(a, b);
  }

  /** User isolation: a lookup for one user never matches a key of another (user 1 never sees user 11). */
  lemma PatternIsolatesUser(p: Permission, pat: Pattern)
    requires Matches(Key(p), pat)
    ensures p.idUser == pat.idUser
  {
    assert StartsWith(Key(p), UserPrefix(p.idUser)) by {
      assert Key(p)[..|UserPrefix(p.idUser)|] == UserPrefix(p.idUser);
    }
    PrefixesDetermineUser(Key(p), p.idUser, pat.idUser);
  }

  /** The key of a tuple matches the resource pattern of its user and resource. */
  lemma KeyMatchesOwnResource(p: Permission)
    ensures Matches(Key(p), ResourcePattern(p.idUser, p.resource))
  {
    var k := Key(p);
    assert k[..|UserPrefix(p.idUser)|] == UserPrefix(p.idUser);
    assert k[|k| - |p.resource|..] == p.resource;
  }

  /** The key of a tuple matches the user pattern of its user. */
  lemma KeyMatchesOwnUser(p: Permission)
    ensures Matches(Key(p), UserPattern(p.idUser))
  {
    var k := Key(p);
    var prefix := UserPrefix(p.idUser);
    assert k[..|prefix|] == prefix;
    var colon := |prefix| + |NatToString(p.groupId)|;
    assert k[|prefix|..][colon - |prefix|] == ':';
  }

  /** `rowData.substring(rowData.indexOf('/'))`: the resource read back from a key. */
  function ResourceOf(field: string): string {
    Substring(field, IndexOf(field, '/'))
  }

  /** Reading the resource back from a key inverts building it, for resources that are paths. */
  lemma ResourceOfKey(p: Permission)
    requires |p.resource| > 0 && p.resource[0] == '/'
    ensures ResourceOf(Key(p)) == p.resource
  {
    var head := NatToString(p.idUser) + ":" + NatToString(p.groupId) + ":";
    var k := Key(p);
    assert k == head + p.resource;
    assert k[|head|] == '/';
    assert forall i :: 0 <= i < |head| ==> k[i] != '/' by {
      forall i | 0 <= i < |head|
        ensures k[i] != '/'
      {
        assert k[i] == head[i];
        assert head[i] in NatToString(p.idUser) || head[i] == ':' || head[i] in NatToString(p.groupId);
      }
    }
    assert IndexOf(k, '/') == |head|;
    assert k[|head|..] == p.resource;
  }

  /** The hash after `hset` of every tuple in order: a later tuple with the same key overwrites. */
  function HashOf(rows: seq<Permission>): map<string, Flags> {
    if |rows| == 0 then map[]
    else HashOf(rows[..|rows| - 1])[Key(rows[|rows| - 1]) := rows[|rows| - 1].FlagsOf()]
  }

  /** The fields of the hash are exactly the keys of the tuples. */
  lemma {:induction false} HashOfKeys(rows: seq<Permission>)
    ensures forall k :: k in HashOf(rows) <==> exists i :: 0 <= i < |rows| && Key(rows[i]) == k
  {
    if |rows| > 0 {
      var init := rows[..|rows| - 1];
      HashOfKeys(init);
      assert forall i :: 0 <= i < |init| ==> init[i] == rows[i];
    }
  }

  predicate KeysUnique(rows: seq<Permission>) {
    forall i, j :: 0 <= i < j < |rows| ==> Key(rows[i]) != Key(rows[j])
  }

  /** With distinct keys every tuple's flags are stored under its key. */
  lemma {:induction false} HashOfValues(rows: seq<Permission>)
    requires KeysUnique(rows)
    ensures forall i :: 0 <= i < |rows| ==> Key(rows[i]) in HashOf(rows) && HashOf(rows)[Key(rows[i])] == rows[i].FlagsOf()
  {
    if |rows| > 0 {
      var init := rows[..|rows| - 1];
      assert KeysUnique(init) by {
        assert forall i :: 0 <= i < |init| ==> init[i] == rows[i];
      }
      HashOfValues(init);
      assert forall i :: 0 <= i < |init| ==> init[i] == rows[i];
    }
  }

  /** Where a fetched tuple comes from: a grant of its group on a resource with its name. */
  lemma Provenance(t: Tables, p: Permission) returns (gr: GroupResource, r: Resource)
    requires p in GetUsersPermissions(t)
    ensures gr in t.groupResources && r in t.resources
    ensures gr.groupId == p.groupId && gr.resourceId == r.id && r.name == p.resource
    ensures p.write == gr.write && p.update == gr.update && p.del == gr.delete
  {
    PermissionsSound(t, p);
    var gu, gr', u, g, r' :|
      && gu in t.groupUsers && gr' in t.groupResources
      && u in t.users && g in t.groups && r' in t.resources
      && Joined(gu, gr', u, g, r') && p == Projected(u, g, r', gr');
    gr, r := gr', r';
  }

  lemma ResourceByName(t: Tables, r1: Resource, r2: Resource)
    requires EntityKeys(t) && r1 in t.resources && r2 in t.resources
    ensures r1.name == r2.name ==> r1 == r2
  {
    var a :| 0 <= a < |t.resources| && t.resources[a] == r1;
    var b :| 0 <= b < |t.resources| && t.resources[b] == r2;
    if a < b {
      assert t.resources[a].name != t.resources[b].name;
    } else if b < a {
      assert t.resources[b].name != t.resources[a].name;
    }
  }

  lemma GrantByKey(t: Tables, g1: GroupResource, g2: GroupResource)
    requires GrantsUnique(t.groupResources) && g1 in t.groupResources && g2 in t.groupResources
    ensures g1.groupId == g2.groupId && g1.resourceId == g2.resourceId ==> g1 == g2
  {
    var c :| 0 <= c < |t.groupResources| && t.groupResources[c] == g1;
    var d :| 0 <= d < |t.groupResources| && t.groupResources[d] == g2;
    if c < d {
      assert t.groupResources[c].groupId != t.groupResources[d].groupId ||
             t.groupResources[c].resourceId != t.groupResources[d].resourceId;
    } else if d < c {
      assert t.groupResources[d].groupId != t.groupResources[c].groupId ||
             t.groupResources[d].resourceId != t.groupResources[c].resourceId;
    }
  }

  /** In well-formed tables two fetched tuples with one key are one tuple. */
  lemma SameKeySameTuple(t: Tables, p: Permission, q: Permission)
    requires WellFormed(t)
    requires p in GetUsersPermissions(t) && q in GetUsersPermissions(t)
    ensures Key(p) == Key(q) ==> p == q
  {
    if Key(p) == Key(q) {
      KeyInjective(p, q);
      var gr1, r1 := Provenance(t, p);
      var gr2, r2 := Provenance(t, q);
      ResourceByName(t, r1, r2);
      GrantByKey(t, gr1, gr2);
    }
  }

  /** Tuples fetched from well-formed tables have distinct keys. */
  lemma FetchedKeysUnique(t: Tables)
    requires WellFormed(t)
    ensures KeysUnique(GetUsersPermissions(t))
  {
    var rows := GetUsersPermissions(t);
    forall i, j | 0 <= i < j < |rows|
      ensures Key(rows[i]) != Key(rows[j])
    {
      SameKeySameTuple(t, rows[i], rows[j]);
    }
  }

  /** The cache state a rebuild from these tables produces. */
  function Projection(t: Tables): map<string, Flags> {
    HashOf(GetUsersPermissions(t))
  }

  /** After a rebuild the hash holds exactly the fetched tuples' keys, each with its tuple's flags. */
  lemma ProjectionExact(t: Tables)
    requires WellFormed(t)
    ensures forall k :: k in Projection(t) <==> exists p :: p in GetUsersPermissions(t) && Key(p) == k
    ensures forall p :: p in GetUsersPermissions(t) ==> Key(p) in Projection(t) && Projection(t)[Key(p)] == p.FlagsOf()
  {
    var rows := GetUsersPermissions(t);
    HashOfKeys(rows);
    FetchedKeysUnique(t);
    HashOfValues(rows);
  }

  /** Two valid databases that fetch the same tuples rebuild the same hash. */
  lemma ProjectionDeterminedByRows(t1: Tables, t2: Tables)
    requires WellFormed(t1) && WellFormed(t2)
    requires forall p :: p in GetUsersPermissions(t1) <==> p in GetUsersPermissions(t2)
    ensures Projection(t1) == Projection(t2)
  {
    ProjectionExact(t1);
    ProjectionExact(t2);
    forall k | k in Projection(t1)
      ensures k in Projection(t2) && Projection(t1)[k] == Projection(t2)[k]
    {
      var p :| p in GetUsersPermissions(t1) && Key(p) == k;
    }
    forall k | k in Projection(t2)
      ensures k in Projection(t1)
    {
      var p :| p in GetUsersPermissions(t2) && Key(p) == k;
    }
  }

  /** Two valid databases with the same join paths rebuild the same hash. */
  lemma SameReachableSameProjection(t1: Tables, t2: Tables)
    requires WellFormed(t1) && WellFormed(t2)
    requires forall p :: Reachable(t1, p) <==> Reachable(t2, p)
    ensures Projection(t1) == Projection(t2)
  {
    SameReachableSameRows(t1, t2);
    ProjectionDeterminedByRows(t1, t2);
  }

  /** One field/value pair of an HSCAN reply (the reply's even and odd positions). */
  datatype Entry = Entry(field: string, value: Flags)

  /** A complete scan: every matching field exactly once, with its stored value. */
  predicate IsScanOf(auth: map<string, Flags>, reply: seq<Entry>, pat: Pattern) {
    && (forall i :: 0 <= i < |reply| ==>
          reply[i].field in auth && auth[reply[i].field] == reply[i].value && Matches(reply[i].field, pat))
    && (forall k :: k in auth && Matches(k, pat) ==> exists i :: 0 <= i < |reply| && reply[i].field == k)
    && (forall i, j :: 0 <= i < j < |reply| ==> reply[i].field != reply[j].field)
  }

  function Or(a: Flags, b: Flags): Flags {
    Flags(a.write || b.write, a.update || b.update, a.del || b.del)
  }

  /** `permissions.some(p => p.write)` and likewise for `update` and `del`. */
  function SomeFlags(reply: seq<Entry>): (f: Flags)
    ensures f.write <==> exists e :: e in reply && e.value.write
    ensures f.update <==> exists e :: e in reply && e.value.update
    ensures f.del <==> exists e :: e in reply && e.value.del
  {
    if |reply| == 0 then Flags(false, false, false)
    else
      var init := reply[..|reply| - 1];
      assert reply == init + [reply[|reply| - 1]];
      Or(SomeFlags(init), reply[|reply| - 1].value)
  }

  /** The pure part of getUserRolesFromResource: null on an empty reply, else the OR of every value. */
  function RolesFromReply(resource: string, reply: seq<Entry>): (r: Option<ResourcePermission>)
    ensures r.None? <==> |reply| == 0
    ensures r.Some? ==> r.value.resource == resource
  {
    if |reply| == 0 then None
    else
      var f := SomeFlags(reply);
      Some(ResourcePermission(resource, f.write, f.update, f.del))
  }

  /** What getUserRolesFromResource answers, stated on the hash itself. */
  ghost function ResourceLookup(auth: map<string, Flags>, idUser: nat, resource: string): Option<ResourcePermission> {
    var pat := ResourcePattern(idUser, resource);
    if forall k :: k in auth ==> !Matches(k, pat) then None
    else Some(ResourcePermission(resource,
      exists k :: k in auth && Matches(k, pat) && auth[k].write,
      exists k :: k in auth && Matches(k, pat) && auth[k].update,
      exists k :: k in auth && Matches(k, pat) && auth[k].del))
  }

  /** Any complete scan gives the same answer, whatever order HSCAN returns the fields in. */
  lemma RolesFromScan(auth: map<string, Flags>, idUser: nat, resource: string, reply: seq<Entry>)
    requires IsScanOf(auth, reply, ResourcePattern(idUser, resource))
    ensures RolesFromReply(resource, reply) == ResourceLookup(auth, idUser, resource)
  {
    var pat := ResourcePattern(idUser, resource);
    if |reply| > 0 {
      assert reply[0].field in auth && Matches(reply[0].field, pat);
      forall k | k in auth && Matches(k, pat)
        ensures Entry(k, auth[k]) in reply
      {
        var i :| 0 <= i < |reply| && reply[i].field == k;
        assert reply[i] == Entry(k, auth[k]);
      }
    }
  }

  /** The reply entries whose key reads back as `resource`, in reply order. */
  function EntriesFor(reply: seq<Entry>, resource: string): (es: seq<Entry>)
    ensures forall e :: e in es <==> e in reply && ResourceOf(e.field) == resource
  {
    if |reply| == 0 then []
    else
      var init := reply[..|reply| - 1];
      var e := reply[|reply| - 1];
      assert reply == init + [e];
      EntriesFor(init, resource) + (if ResourceOf(e.field) == resource then [e] else [])
  }

  lemma EntriesForSnoc(init: seq<Entry>, e: Entry, r: string)
    ensures EntriesFor(init + [e], r) == EntriesFor(init, r) + (if ResourceOf(e.field) == r then [e] else [])
  {
    assert (init + [e])[..|init|] == init;
  }

  lemma EntriesForEmpty(reply: seq<Entry>, r: string)
    ensures EntriesFor(reply, r) == [] <==> forall e :: e in reply ==> ResourceOf(e.field) != r
  {
    var es := EntriesFor(reply, r);
    if es != [] {
      assert es[0] in es;
    }
  }

  lemma SomeFlagsSnoc(s: seq<Entry>, e: Entry)
    ensures SomeFlags(s + [e]) == Or(SomeFlags(s), e.value)
  {
    assert (s + [e])[..|s|] == s;
  }

  /** The dataMap of getUserRolesByResources after a prefix of the reply. */
  function MergeByResource(reply: seq<Entry>): (m: map<string, Flags>)
    ensures forall res :: res in m <==> exists e :: e in reply && ResourceOf(e.field) == res
  {
    if |reply| == 0 then map[]
    else
      var init := reply[..|reply| - 1];
      var e := reply[|reply| - 1];
      assert reply == init + [e];
      var m := MergeByResource(init);
      var res := ResourceOf(e.field);
      m[res := if res in m then Or(e.value, m[res]) else e.value]
  }

  /** A merge step leaves the other resources' values alone. */
  lemma MergeStepOther(init: seq<Entry>, e: Entry, r: string)
    requires r != ResourceOf(e.field)
    requires r in MergeByResource(init) ==> MergeByResource(init)[r] == SomeFlags(EntriesFor(init, r))
    requires r in MergeByResource(init + [e])
    ensures MergeByResource(init + [e])[r] == SomeFlags(EntriesFor(init + [e], r))
  {
    assert (init + [e])[..|init|] == init;
    EntriesForSnoc(init, e, r);
  }

  /** A merge step into a resource already present ORs the new flags in. */
  lemma MergeStepHit(init: seq<Entry>, e: Entry, r: string)
    requires r == ResourceOf(e.field) && r in MergeByResource(init)
    requires MergeByResource(init)[r] == SomeFlags(EntriesFor(init, r))
    ensures MergeByResource(init + [e])[r] == SomeFlags(EntriesFor(init + [e], r))
  {
    assert (init + [e])[..|init|] == init;
    EntriesForSnoc(init, e, r);
    SomeFlagsSnoc(EntriesFor(init, r), e);
  }

  /** A merge step into a new resource stores the entry's flags. */
  lemma MergeStepNew(init: seq<Entry>, e: Entry, r: string)
    requires r == ResourceOf(e.field) && r !in MergeByResource(init)
    ensures MergeByResource(init + [e])[r] == SomeFlags(EntriesFor(init + [e], r))
  {
    assert (init + [e])[..|init|] == init;
    EntriesForSnoc(init, e, r);
    EntriesForEmpty(init, r);
    SomeFlagsSnoc([], e);
  }

  /** Each merged value is the OR of the values of the entries for its resource. */
  lemma {:induction false} MergeByResourceValues(reply: seq<Entry>)
    ensures forall res :: res in MergeByResource(reply) ==>
      MergeByResource(reply)[res] == SomeFlags(EntriesFor(reply, res))
  {
    if |reply| > 0 {
      var init := reply[..|reply| - 1];
      var e := reply[|reply| - 1];
      assert reply == init + [e];
      MergeByResourceValues(init);
      forall r | r in MergeByResource(reply)
        ensures MergeByResource(reply)[r] == SomeFlags(EntriesFor(reply, r))
      {
        if r != ResourceOf(e.field) {
          MergeStepOther(init, e, r);
        } else if r in MergeByResource(init) {
          MergeStepHit(init, e, r);
        } else {
          MergeStepNew(init, e, r);
        }
      }
    }
  }

  /** The Map's insertion order: each resource where it first occurs in the reply. */
  function ResourceOrder(reply: seq<Entry>): (order: seq<string>)
    ensures forall res :: res in order <==> exists e :: e in reply && ResourceOf(e.field) == res
  {
    if |reply| == 0 then []
    else
      var init := reply[..|reply| - 1];
      assert reply == init + [reply[|reply| - 1]];
      var order := ResourceOrder(init);
      var res := ResourceOf(reply[|reply| - 1].field);
      if res in order then order else order + [res]
  }

  /** Each resource has one place in the insertion order. */
  lemma {:induction false} ResourceOrderDistinct(reply: seq<Entry>)
    ensures NoDuplicates(ResourceOrder(reply))
    decreases |reply|
  {
    if |reply| > 0 {
      ResourceOrderDistinct(reply[..|reply| - 1]);
    }
  }

  lemma MergeSnoc(init: seq<Entry>, e: Entry)
    ensures var m := MergeByResource(init); var res := ResourceOf(e.field);
      MergeByResource(init + [e]) == m[res := if res in m then Or(e.value, m[res]) else e.value]
  {
    assert (init + [e])[..|init|] == init;
  }

  lemma ResourceOrderSnoc(init: seq<Entry>, e: Entry)
    ensures var order := ResourceOrder(init); var res := ResourceOf(e.field);
      ResourceOrder(init + [e]) == if res in order then order else order + [res]
  {
    assert (init + [e])[..|init|] == init;
  }

  /** A resource is in the Map exactly when it has a place in the insertion order. */
  lemma MergeOrderAgree(reply: seq<Entry>)
    ensures forall res :: res in MergeByResource(reply) <==> res in ResourceOrder(reply)
  {
  }

  /** One more entry of a reply's prefix, for both the Map and the insertion order. */
  lemma MergePrefixStep(reply: seq<Entry>, i: nat)
    requires i < |reply|
    ensures var m := MergeByResource(reply[..i]); var order := ResourceOrder(reply[..i]); var res := ResourceOf(reply[i].field);
      && (res in m <==> res in order)
      && MergeByResource(reply[..i + 1]) == m[res := if res in m then Or(reply[i].value, m[res]) else reply[i].value]
      && ResourceOrder(reply[..i + 1]) == if res in order then order else order + [res]
  {
    assert reply[..i + 1] == reply[..i] + [reply[i]];
    MergeSnoc(reply[..i], reply[i]);
    ResourceOrderSnoc(reply[..i], reply[i]);
    MergeOrderAgree(reply[..i]);
  }

  /** The merged map depends only on the set of entries: not on their order, nor on repeats. */
  lemma MergeOrderIndependent(r1: seq<Entry>, r2: seq<Entry>)
    requires forall e :: e in r1 <==> e in r2
    ensures MergeByResource(r1) == MergeByResource(r2)
  {
    var m1, m2 := MergeByResource(r1), MergeByResource(r2);
    MergeByResourceValues(r1);
    MergeByResourceValues(r2);
    assert m1.Keys == m2.Keys;
    forall res | res in m1
      ensures m1[res] == m2[res]
    {
      SameEntriesSameFlags(r1, r2, res);
    }
  }

  /** Two replies with the same entries OR the same flags for each resource. */
  lemma SameEntriesSameFlags(r1: seq<Entry>, r2: seq<Entry>, res: string)
    requires forall e :: e in r1 <==> e in r2
    ensures SomeFlags(EntriesFor(r1, res)) == SomeFlags(EntriesFor(r2, res))
  {
    var e1, e2 := EntriesFor(r1, res), EntriesFor(r2, res);
    assert forall e :: e in e1 <==> e in e2;
  }

  /** The documented example: three groups granting one flag each on `/users` merge to all three. */
  lemma TruePrevails()
    ensures var reply := [
      Entry(Key(Permission(1, "/users", 1, true, false, false)), Flags(true, false, false)),
      Entry(Key(Permission(1, "/users", 2, false, true, false)), Flags(false, true, false)),
      Entry(Key(Permission(1, "/users", 3, false, false, true)), Flags(false, false, true))];
      "/users" in MergeByResource(reply) && MergeByResource(reply)["/users"] == Flags(true, true, true)
  {
    var p1 := Permission(1, "/users", 1, true, false, false);
    var p2 := Permission(1, "/users", 2, false, true, false);
    var p3 := Permission(1, "/users", 3, false, false, true);
    var reply := [Entry(Key(p1), p1.FlagsOf()), Entry(Key(p2), p2.FlagsOf()), Entry(Key(p3), p3.FlagsOf())];
    ResourceOfKey(p1);
    ResourceOfKey(p2);
    ResourceOfKey(p3);
    MergeByResourceValues(reply);
    var es := EntriesFor(reply, "/users");
    assert reply[0] in es && reply[1] in es && reply[2] in es;
    assert "/users" in MergeByResource(reply) by {
      assert reply[0] in reply;
    }
  }

  /** The resources a user has some entry for, as getUserRolesByResources reads them back. */
  ghost predicate HasResource(auth: map<string, Flags>, idUser: nat, resource: string) {
    exists k :: k in auth && Matches(k, UserPattern(idUser)) && ResourceOf(k) == resource
  }

  /** The OR of a user's flags over every entry whose key reads back as `resource`. */
  ghost function MergedFlags(auth: map<string, Flags>, idUser: nat, resource: string): Flags {
    var pat := UserPattern(idUser);
    Flags(
      exists k :: k in auth && Matches(k, pat) && ResourceOf(k) == resource && auth[k].write,
      exists k :: k in auth && Matches(k, pat) && ResourceOf(k) == resource && auth[k].update,
      exists k :: k in auth && Matches(k, pat) && ResourceOf(k) == resource && auth[k].del)
  }

  /** Any complete scan of the user pattern merges into the same per-resource flags. */
  lemma MergeFromScan(auth: map<string, Flags>, idUser: nat, reply: seq<Entry>, resource: string)
    requires IsScanOf(auth, reply, UserPattern(idUser))
    ensures resource in MergeByResource(reply) <==> HasResource(auth, idUser, resource)
    ensures resource in MergeByResource(reply) ==> MergeByResource(reply)[resource] == MergedFlags(auth, idUser, resource)
  {
    var pat := UserPattern(idUser);
    var es := EntriesFor(reply, resource);
    MergeByResourceValues(reply);
    forall k | k in auth && Matches(k, pat) && ResourceOf(k) == resource
      ensures Entry(k, auth[k]) in es
    {
      var i :| 0 <= i < |reply| && reply[i].field == k;
      assert reply[i] == Entry(k, auth[k]);
    }
    forall e | e in es
      ensures e.field in auth && Matches(e.field, pat) && ResourceOf(e.field) == resource && auth[e.field] == e.value
    {
      var i :| 0 <= i < |reply| && reply[i] == e;
    }
    if es != [] {
      assert es[0] in es;
    }
  }

  function ResourcePermissionOf(resource: string, f: Flags): ResourcePermission {
    ResourcePermission(resource, f.write, f.update, f.del)
  }

  /** Rebuild round-trip: after a rebuild every fetched tuple is found again, with flags at least its own. */
  lemma RebuildRoundTrip(t: Tables, p: Permission)
    requires WellFormed(t) && p in GetUsersPermissions(t)
    ensures var r := ResourceLookup(Projection(t), p.idUser, p.resource);
      && r.Some? && r.value.resource == p.resource
      && (p.write ==> r.value.write) && (p.update ==> r.value.update) && (p.del ==> r.value.del)
  {
    var auth := Projection(t);
    var k := Key(p);
    var pat := ResourcePattern(p.idUser, p.resource);
    assert k in auth && auth[k] == p.FlagsOf() by {
      ProjectionExact(t);
    }
    assert Matches(k, pat) by {
      KeyMatchesOwnResource(p);
    }
    assert !(forall k' :: k' in auth ==> !Matches(k', pat));
    assert auth[k].write == p.write && auth[k].update == p.update && auth[k].del == p.del;
  }

  lemma SuffixAt(s: string, res: string, k: int)
    ensures EndsWith(s, res) && 0 <= k < |res| ==> res[k] == s[|s| - |res| + k]
  {
    if EndsWith(s, res) && 0 <= k < |res| {
      assert s[|s| - |res|..][k] == res[k];
    }
  }

  /** A suffix free of `:` of `{a}:{b}` is a suffix of `b`. */
  lemma ColonFreeSuffix(a: string, b: string, res: string)
    requires ':' !in res && EndsWith(a + ":" + b, res)
    ensures EndsWith(b, res)
  {
    var s := a + ":" + b;
    if |res| > |b| {
      SuffixAt(s, res, |res| - |b| - 1);
      ColonAt(a, b);
      assert false;
    }
    assert s[|s| - |res|..] == b[|b| - |res|..];
  }

  /** On a tuple's key, the resource pattern for a path without `:` means: same user, resource ends with the path. */
  lemma KeyMatchesResource(p: Permission, idUser: nat, res: string)
    requires ':' !in res
    ensures Matches(Key(p), ResourcePattern(idUser, res)) <==> p.idUser == idUser && EndsWith(p.resource, res)
  {
    var k := Key(p);
    var head := NatToString(p.idUser) + ":" + NatToString(p.groupId);
    assert k == head + ":" + p.resource;
    if Matches(k, ResourcePattern(idUser, res)) {
      PatternIsolatesUser(p, ResourcePattern(idUser, res));
      ColonFreeSuffix(head, p.resource, res);
    }
    if p.idUser == idUser && EndsWith(p.resource, res) {
      assert k[..|UserPrefix(p.idUser)|] == UserPrefix(p.idUser);
      assert k[|k| - |res|..] == p.resource[|p.resource| - |res|..];
    }
  }

  /** What a lookup after a rebuild answers, stated on the tables: the tuples of that user whose resource ends with the path. */
  lemma LookupAgainstTables(t: Tables, idUser: nat, res: string)
    requires WellFormed(t) && ':' !in res
    ensures var r := ResourceLookup(Projection(t), idUser, res);
      && (r.Some? <==> exists p :: p in GetUsersPermissions(t) && p.idUser == idUser && EndsWith(p.resource, res))
      && (r.Some? ==> (r.value.write <==>
            exists p :: p in GetUsersPermissions(t) && p.idUser == idUser && EndsWith(p.resource, res) && p.write))
      && (r.Some? ==> (r.value.update <==>
            exists p :: p in GetUsersPermissions(t) && p.idUser == idUser && EndsWith(p.resource, res) && p.update))
      && (r.Some? ==> (r.value.del <==>
            exists p :: p in GetUsersPermissions(t) && p.idUser == idUser && EndsWith(p.resource, res) && p.del))
  {
    ProjectionExact(t);
    RowsMatchResource(GetUsersPermissions(t), idUser, res);
    LookupFromRows(Projection(t), GetUsersPermissions(t), idUser, res);
  }

  lemma RowsMatchResource(rows: seq<Permission>, idUser: nat, res: string)
    requires ':' !in res
    ensures forall p :: p in rows ==>
      (Matches(Key(p), ResourcePattern(idUser, res)) <==> p.idUser == idUser && EndsWith(p.resource, res))
  {
    forall p | p in rows
      ensures Matches(Key(p), ResourcePattern(idUser, res)) <==> p.idUser == idUser && EndsWith(p.resource, res)
    {
      KeyMatchesResource(p, idUser, res);
    }
  }

  /** The lookup over a hash holding exactly the keys of some tuples, each with its tuple's flags. */
  lemma LookupFromRows(auth: map<string, Flags>, rows: seq<Permission>, idUser: nat, res: string)
    requires forall k :: k in auth <==> exists p :: p in rows && Key(p) == k
    requires forall p :: p in rows ==> Key(p) in auth && auth[Key(p)] == p.FlagsOf()
    requires forall p :: p in rows ==>
      (Matches(Key(p), ResourcePattern(idUser, res)) <==> p.idUser == idUser && EndsWith(p.resource, res))
    ensures var r := ResourceLookup(auth, idUser, res);
      && (r.Some? <==> exists p :: p in rows && p.idUser == idUser && EndsWith(p.resource, res))
      && (r.Some? ==> (r.value.write <==> exists p :: p in rows && p.idUser == idUser && EndsWith(p.resource, res) && p.write))
      && (r.Some? ==> (r.value.update <==> exists p :: p in rows && p.idUser == idUser && EndsWith(p.resource, res) && p.update))
      && (r.Some? ==> (r.value.del <==> exists p :: p in rows && p.idUser == idUser && EndsWith(p.resource, res) && p.del))
  {
  }

  /** After a rebuild, every fetched tuple whose resource is a path appears in the by-resource listing of its user. */
  lemma ByResourcesRoundTrip(t: Tables, p: Permission)
    requires WellFormed(t) && p in GetUsersPermissions(t)
    requires |p.resource| > 0 && p.resource[0] == '/'
    ensures HasResource(Projection(t), p.idUser, p.resource)
    ensures var f := MergedFlags(Projection(t), p.idUser, p.resource);
      (p.write ==> f.write) && (p.update ==> f.update) && (p.del ==> f.del)
  {
    ProjectionExact(t);
    KeyMatchesOwnUser(p);
    ResourceOfKey(p);
  }

  /** The contract of getUserRolesByResources: each resource read back from the user's keys once, with its merged flags. */
  ghost predicate ListsRolesOf(auth: map<string, Flags>, idUser: nat, permissions: seq<ResourcePermission>) {
    && (forall i, j :: 0 <= i < j < |permissions| ==> permissions[i].resource != permissions[j].resource)
    && (forall res :: HasResource(auth, idUser, res) <==>
          exists i :: 0 <= i < |permissions| && permissions[i].resource == res)
    && (forall i :: 0 <= i < |permissions| ==>
          permissions[i] == ResourcePermissionOf(permissions[i].resource, MergedFlags(auth, idUser, permissions[i].resource)))
  }

  /** The Redis hash `auth`. */
  class Cache {
    var auth: map<string, Flags>

    constructor ()
      ensures auth == map[]
    {
      auth := map[];
    }

    /** HSCAN auth 0 MATCH pattern, assumed to return every match in one reply. */
    method HScan(pat: Pattern) returns (reply: seq<Entry>)
      ensures IsScanOf(auth, reply, pat)
    {
      reply := [];
      var rest := auth.Keys;
      while rest != {}
        invariant rest <= auth.Keys
        invariant forall i :: 0 <= i < |reply| ==>
          reply[i].field in auth && auth[reply[i].field] == reply[i].value &&
          Matches(reply[i].field, pat) && reply[i].field !in rest
        invariant forall k :: k in auth && k !in rest && Matches(k, pat) ==>
          exists i :: 0 <= i < |reply| && reply[i].field == k
        invariant forall i, j :: 0 <= i < j < |reply| ==> reply[i].field != reply[j].field
        decreases rest
      {
        var k :| k in rest;
        if Matches(k, pat) {
          var before := reply;
          reply := reply + [Entry(k, auth[k])];
          assert forall i :: 0 <= i < |before| ==> reply[i] == before[i];
          assert reply[|before|].field == k;
        }
        rest := rest - {k};
      }
    }

    /** loadAuthorizationRoles: delete the hash, then `hset` every fetched tuple. */
    method LoadAuthorizationRoles(t: Tables)
      modifies this
      ensures auth == Projection(t)
    {
      var permissions := GetUsersPermissions(t);
      auth := map[];
      var i := 0;
      while i < |permissions|
        invariant 0 <= i <= |permissions|
        invariant auth == HashOf(permissions[..i])
      {
        assert permissions[..i + 1][..i] == permissions[..i];
        auth := auth[Key(permissions[i]) := permissions[i].FlagsOf()];
        i := i + 1;
      }
      assert permissions[..i] == permissions;
    }

    /** getUserRolesFromResource: null iff no field matches `{idUser}:*{resource}`, else the OR of the matches. */
    method GetUserRolesFromResource(idUser: nat, resource: string) returns (r: Option<ResourcePermission>)
      ensures r == ResourceLookup(auth, idUser, resource)
    {
      var reply := HScan(ResourcePattern(idUser, resource));
      r := RolesFromReply(resource, reply);
      RolesFromScan(auth, idUser, resource, reply);
    }

    /** getUserRolesByResources: one entry per resource read back from the user's keys, flags OR-merged. */
    method GetUserRolesByResources(idUser: nat) returns (permissions: seq<ResourcePermission>)
      ensures ListsRolesOf(auth, idUser, permissions)
    {
      var reply := HScan(UserPattern(idUser));
      permissions := GroupByResource(reply);
      ByResourcesSpec(auth, idUser, reply, ResourceOrder(reply), permissions);
    }
  }

  /** The two loops of getUserRolesByResources: fill the Map entry by entry, then list its values in insertion order. */
  method GroupByResource(reply: seq<Entry>) returns (permissions: seq<ResourcePermission>)
    ensures |permissions| == |ResourceOrder(reply)|
    ensures forall n :: 0 <= n < |permissions| ==>
      var res := ResourceOrder(reply)[n];
      res in MergeByResource(reply) && permissions[n] == ResourcePermissionOf(res, MergeByResource(reply)[res])
  {
    var dataMap, order := MergeEntries(reply);
    MergeOrderAgree(reply);
    assert forall n :: 0 <= n < |order| ==> order[n] in dataMap by {
      forall n | 0 <= n < |order|
        ensures order[n] in dataMap
      {
        assert order[n] in order;
      }
    }
    permissions := ListInOrder(order, dataMap);
  }

  /** The first loop: each entry ORed into its resource's Map entry, new resources remembered in order. */
  method MergeEntries(reply: seq<Entry>) returns (dataMap: map<string, Flags>, order: seq<string>)
    ensures dataMap == MergeByResource(reply) && order == ResourceOrder(reply)
  {
    dataMap := map[];
    order := [];
    var i := 0;
    while i < |reply|
      invariant 0 <= i <= |reply|
      invariant dataMap == MergeByResource(reply[..i])
      invariant order == ResourceOrder(reply[..i])
    {
      MergePrefixStep(reply, i);
      dataMap, order := MergeEntry(dataMap, order, reply[i]);
      i := i + 1;
    }
    assert reply[..i] == reply;
  }

  /** The body of the first loop: a new resource is set and remembered, a known one ORed with the entry. */
  method MergeEntry(dataMap: map<string, Flags>, order: seq<string>, e: Entry)
    returns (dataMap': map<string, Flags>, order': seq<string>)
    ensures var res := ResourceOf(e.field);
      && dataMap' == dataMap[res := if res in dataMap then Or(e.value, dataMap[res]) else e.value]
      && order' == if res in dataMap then order else order + [res]
  {
    var resource := ResourceOf(e.field);
    if resource !in dataMap {
      dataMap' := dataMap[resource := e.value];
      order' := order + [resource];
    } else {
      dataMap' := dataMap[resource := Or(e.value, dataMap[resource])];
      order' := order;
    }
  }

  /** `dataMap.forEach(p => permissions.push(p))`: the Map's values in insertion order. */
  method ListInOrder(order: seq<string>, dataMap: map<string, Flags>) returns (permissions: seq<ResourcePermission>)
    requires forall n :: 0 <= n < |order| ==> order[n] in dataMap
    ensures |permissions| == |order|
    ensures forall n :: 0 <= n < |order| ==> permissions[n] == ResourcePermissionOf(order[n], dataMap[order[n]])
  {
    permissions := [];
    var j := 0;
    while j < |order|
      invariant 0 <= j <= |order|
      invariant |permissions| == j
      invariant forall n :: 0 <= n < j ==> permissions[n] == ResourcePermissionOf(order[n], dataMap[order[n]])
    {
      permissions := permissions + [ResourcePermissionOf(order[j], dataMap[order[j]])];
      j := j + 1;
    }
  }

  /** The facts that give getUserRolesByResources its contract. */
  lemma ByResourcesSpec(auth: map<string, Flags>, idUser: nat, reply: seq<Entry>, order: seq<string>,
                        permissions: seq<ResourcePermission>)
    requires IsScanOf(auth, reply, UserPattern(idUser))
    requires order == ResourceOrder(reply)
    requires |permissions| == |order|
    requires forall n :: 0 <= n < |order| ==>
      order[n] in MergeByResource(reply) &&
      permissions[n] == ResourcePermissionOf(order[n], MergeByResource(reply)[order[n]])
    ensures ListsRolesOf(auth, idUser, permissions)
  {
    var m := MergeByResource(reply);
    ResourceOrderDistinct(reply);
    forall res
      ensures HasResource(auth, idUser, res) <==> exists i :: 0 <= i < |permissions| && permissions[i].resource == res
    {
      MergeFromScan(auth, idUser, reply, res);
      if res in m {
        var es := EntriesFor(reply, res);
        assert es[0] in es;
        assert res in order;
        var n :| 0 <= n < |order| && order[n] == res;
        assert permissions[n].resource == res;
      }
    }
    forall i | 0 <= i < |permissions|
      ensures permissions[i] == ResourcePermissionOf(permissions[i].resource, MergedFlags(auth, idUser, permissions[i].resource))
    {
      MergeFromScan(auth, idUser, reply, order[i]);
    }
  }
}
