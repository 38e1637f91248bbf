/**
 * The relational model behind the permission engine: users, groups,
 * resources, group memberships (groups_users) and group grants
 * (groups_resources), with the keys and unique constraints of their
 * migrations, and the records the services exchange (Permission,
 * ResourcePermission).
 */
module Entities {
  import opened Wrappers

  /** A timestamp such as `new Date()`; its value is never inspected. */
  type Timestamp = nat

  /** The three permission bits of a grant; `del` is the grant's `delete` column. */
  datatype Flags = Flags(write: bool, update: bool, del: bool)

  /** One flat row of the permission join, the unit stored in the cache. */
  datatype Permission = Permission(idUser: nat, resource: string, groupId: nat,
                                   write: bool, update: bool, del: bool)
  {
    function FlagsOf(): Flags {
      Flags(write, update, del)
    }
  }

  /** The permissions of one user on one resource, merged over all of the user's groups. */
  datatype ResourcePermission = ResourcePermission(resource: string, write: bool, update: bool, del: bool)

  datatype User = User(id: nat, name: string, email: string, hash: string, blocked: bool,
                       attempts: Option<nat>, lastLoginAttempt: Option<Timestamp>)

  datatype Group = Group(id: nat, name: string, description: Option<string>, blocked: bool)

  /** A resource is a URL path such as `/users`. */
  datatype Resource = Resource(id: nat, name: string)

  datatype GroupUser = GroupUser(userId: nat, groupId: nat)

  datatype GroupResource = GroupResource(groupId: nat, resourceId: nat, write: bool, update: bool, delete: bool)

  /** The rows of the five tables, in table order. */
  datatype Tables = Tables(users: seq<User>, groups: seq<Group>, resources: seq<Resource>,
                           groupUsers: seq<GroupUser>, groupResources: seq<GroupResource>)

  /** The row with primary key `id` (a primary key matches at most one row of a valid table). */
  function FindUser(users: seq<User>, id: nat): (r: Option<User>)
    ensures r.Some? ==> r.value in users && r.value.id == id
    ensures r.None? ==> forall i :: 0 <= i < |users| ==> users[i].id != id
  {
    if |users| == 0 then None
    else if users[0].id == id then Some(users[0])
    else FindUser(users[1..], id)
  }

  function FindGroup(groups: seq<Group>, id: nat): (r: Option<Group>)
    ensures r.Some? ==> r.value in groups && r.value.id == id
    ensures r.None? ==> forall i :: 0 <= i < |groups| ==> groups[i].id != id
  {
    if |groups| == 0 then None
    else if groups[0].id == id then Some(groups[0])
    else FindGroup(groups[1..], id)
  }

  function FindResource(resources: seq<Resource>, id: nat): (r: Option<Resource>)
    ensures r.Some? ==> r.value in resources && r.value.id == id
    ensures r.None? ==> forall i :: 0 <= i < |resources| ==> resources[i].id != id
  {
    if |resources| == 0 then None
    else if resources[0].id == id then Some(resources[0])
    else FindResource(resources[1..], id)
  }

  /** In a table whose keys are unique, the row found is the one holding the key. */
  lemma {:induction false} FindUserUnique(users: seq<User>, i: nat)
    requires i < |users|
    requires forall a, b :: 0 <= a < b < |users| ==> users[a].id != users[b].id
    ensures FindUser(users, users[i].id) == Some(users[i])
  {
    if i > 0 {
      FindUserUnique(users[1..], i - 1);
    }
  }

  lemma {:induction false} FindGroupUnique(groups: seq<Group>, i: nat)
    requires i < |groups|
    requires forall a, b :: 0 <= a < b < |groups| ==> groups[a].id != groups[b].id
    ensures FindGroup(groups, groups[i].id) == Some(groups[i])
  {
    if i > 0 {
      FindGroupUnique(groups[1..], i - 1);
    }
  }

  lemma {:induction false} FindResourceUnique(resources: seq<Resource>, i: nat)
    requires i < |resources|
    requires forall a, b :: 0 <= a < b < |resources| ==> resources[a].id != resources[b].id
    ensures FindResource(resources, resources[i].id) == Some(resources[i])
  {
    if i > 0 {
      FindResourceUnique(resources[1..], i - 1);
    }
  }

  /** Primary keys (generated, starting at 1) and the unique columns of users, groups and resources. */
  predicate EntityKeys(t: Tables) {
    && (forall i :: 0 <= i < |t.users| ==> t.users[i].id > 0)
    && (forall i :: 0 <= i < |t.groups| ==> t.groups[i].id > 0)
    && (forall i, j :: 0 <= i < j < |t.users| ==>
          t.users[i].id != t.users[j].id && t.users[i].email != t.users[j].email)
    && (forall i, j :: 0 <= i < j < |t.groups| ==>
          t.groups[i].id != t.groups[j].id && t.groups[i].name != t.groups[j].name)
    && (forall i, j :: 0 <= i < j < |t.resources| ==>
          t.resources[i].id != t.resources[j].id && t.resources[i].name != t.resources[j].name)
  }

  /** The unique (user_id, group_id) constraint of groups_users. */
  predicate MembershipsUnique(gus: seq<GroupUser>) {
    forall i, j :: 0 <= i < j < |gus| ==> gus[i] != gus[j]
  }

  /** The unique (group_id, resource_id) constraint of groups_resources. */
  predicate GrantsUnique(grs: seq<GroupResource>) {
    forall i, j :: 0 <= i < j < |grs| ==>
      grs[i].groupId != grs[j].groupId || grs[i].resourceId != grs[j].resourceId
  }

  /** The foreign keys of the two association tables. */
  predicate ForeignKeys(t: Tables) {
    && (forall i :: 0 <= i < |t.groupUsers| ==>
          FindUser(t.users, t.groupUsers[i].userId).Some? && FindGroup(t.groups, t.groupUsers[i].groupId).Some?)
    && (forall i :: 0 <= i < |t.groupResources| ==>
          FindGroup(t.groups, t.groupResources[i].groupId).Some? &&
          FindResource(t.resources, t.groupResources[i].resourceId).Some?)
  }

  /** Every constraint the migrations declare. */
  predicate WellFormed(t: Tables) {
    EntityKeys(t) && MembershipsUnique(t.groupUsers) && GrantsUnique(t.groupResources) && ForeignKeys(t)
  }

  /** The database: its tables and the generator of group ids. */
  class Database {
    var tables: Tables
    var nextGroupId: nat

    ghost predicate Valid()
      reads this
    {
      WellFormed(tables) && nextGroupId > 0 &&
      forall i :: 0 <= i < |tables.groups| ==> tables.groups[i].id < nextGroupId
    }

    constructor (t: Tables, next: nat)
      requires WellFormed(t) && next > 0
      requires forall i :: 0 <= i < |t.groups| ==> t.groups[i].id < next
      ensures Valid() && tables == t && nextGroupId == next
    {
      tables := t;
      nextGroupId := next;
    }
  }
}
