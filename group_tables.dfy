/**
 * The SQL statements issued by the group model, as updates of the in-memory tables.
 * A statement that would break a constraint of the migrations fails instead.
 */
module GroupTables {
  import opened Wrappers
  import opened Entities

  /** A failed statement: a unique or foreign-key constraint, or a row that must exist and does not. */
  datatype DbError = ConstraintViolation | EntityNotFound

  datatype Outcome<+T> = Ok(value: T) | Err(error: DbError)

  /** `insert into groups_users values ...`: fails unless every row's user and group exist and the pairs stay unique. */
  function InsertMemberships(t: Tables, rows: seq<GroupUser>): (r: Outcome<Tables>)
    ensures r.Ok? <==>
      && (forall i :: 0 <= i < |rows| ==>
            FindUser(t.users, rows[i].userId).Some? && FindGroup(t.groups, rows[i].groupId).Some?)
      && MembershipsUnique(t.groupUsers + rows)
    ensures r.Ok? ==> r.value == t.(groupUsers := t.groupUsers + rows)
    ensures r.Ok? && WellFormed(t) ==> WellFormed(r.value)
  {
    if (forall i :: 0 <= i < |rows| ==>
          FindUser(t.users, rows[i].userId).Some? && FindGroup(t.groups, rows[i].groupId).Some?)
       && MembershipsUnique(t.groupUsers + rows)
    then
      var t' := t.(groupUsers := t.groupUsers + rows);
      assert forall i :: 0 <= i < |t'.groupUsers| ==>
        t'.groupUsers[i] == if i < |t.groupUsers| then t.groupUsers[i] else rows[i - |t.groupUsers|];
      Ok(t')
    else Err(ConstraintViolation)
  }

  /** `insert into groups_resources values ...`: fails unless every row's group and resource exist and the pairs stay unique. */
  function InsertGrants(t: Tables, rows: seq<GroupResource>): (r: Outcome<Tables>)
    ensures r.Ok? <==>
      && (forall i :: 0 <= i < |rows| ==>
            FindGroup(t.groups, rows[i].groupId).Some? && FindResource(t.resources, rows[i].resourceId).Some?)
      && GrantsUnique(t.groupResources + rows)
    ensures r.Ok? ==> r.value == t.(groupResources := t.groupResources + rows)
    ensures r.Ok? && WellFormed(t) ==> WellFormed(r.value)
  {
    if (forall i :: 0 <= i < |rows| ==>
          FindGroup(t.groups, rows[i].groupId).Some? && FindResource(t.resources, rows[i].resourceId).Some?)
       && GrantsUnique(t.groupResources + rows)
    then
      var t' := t.(groupResources := t.groupResources + rows);
      assert forall i :: 0 <= i < |t'.groupResources| ==>
        t'.groupResources[i] == if i < |t.groupResources| then t.groupResources[i] else rows[i - |t.groupResources|];
      Ok(t')
    else Err(ConstraintViolation)
  }

  /** `delete from groups_users where user_id in (ids)`, with no condition on the group. */
  function DeleteMembershipsOfUsers(gus: seq<GroupUser>, ids: seq<nat>): (r: seq<GroupUser>)
    ensures forall m :: m in r <==> m in gus && m.userId !in ids
    ensures MembershipsUnique(gus) ==> MembershipsUnique(r)
  {
    if |gus| == 0 then []
    else
      var rest := DeleteMembershipsOfUsers(gus[1..], ids);
      assert forall m :: m in gus <==> m == gus[0] || m in gus[1..];
      if gus[0].userId in ids then rest else [gus[0]] + rest
  }

  /** `delete from groups_users where group_id = :groupId and user_id in (ids)`. */
  function DeleteMembershipsFromGroup(gus: seq<GroupUser>, groupId: nat, ids: seq<nat>): (r: seq<GroupUser>)
    ensures forall m :: m in r <==> m in gus && !(m.groupId == groupId && m.userId in ids)
    ensures MembershipsUnique(gus) ==> MembershipsUnique(r)
  {
    if |gus| == 0 then []
    else
      var rest := DeleteMembershipsFromGroup(gus[1..], groupId, ids);
      assert forall m :: m in gus <==> m == gus[0] || m in gus[1..];
      if gus[0].groupId == groupId && gus[0].userId in ids then rest else [gus[0]] + rest
  }

  /** The two deletes of memberships agree when every listed user's memberships are in the one group. */
  lemma {:induction false} DeletesAgreeWithinGroup(gus: seq<GroupUser>, groupId: nat, ids: seq<nat>)
    requires forall m :: m in gus && m.userId in ids ==> m.groupId == groupId
    ensures DeleteMembershipsOfUsers(gus, ids) == DeleteMembershipsFromGroup(gus, groupId, ids)
  {
    if |gus| > 0 {
      assert gus[0] in gus;
      assert forall m :: m in gus[1..] ==> m in gus;
      DeletesAgreeWithinGroup(gus[1..], groupId, ids);
    }
  }

  /** `delete from groups_users where group_id = :groupId`. */
  function DeleteMembershipsOfGroup(gus: seq<GroupUser>, groupId: nat): (r: seq<GroupUser>)
    ensures forall m :: m in r <==> m in gus && m.groupId != groupId
    ensures MembershipsUnique(gus) ==> MembershipsUnique(r)
  {
    if |gus| == 0 then []
    else
      var rest := DeleteMembershipsOfGroup(gus[1..], groupId);
      assert forall m :: m in gus <==> m == gus[0] || m in gus[1..];
      if gus[0].groupId == groupId then rest else [gus[0]] + rest
  }

  /** `delete from groups_resources where group_id = :groupId and resource_id in (ids)`. */
  function DeleteGrantsFromGroup(grs: seq<GroupResource>, groupId: nat, ids: seq<nat>): (r: seq<GroupResource>)
    ensures forall g :: g in r <==> g in grs && !(g.groupId == groupId && g.resourceId in ids)
    ensures GrantsUnique(grs) ==> GrantsUnique(r)
  {
    if |grs| == 0 then []
    else
      var rest := DeleteGrantsFromGroup(grs[1..], groupId, ids);
      assert forall g :: g in grs <==> g == grs[0] || g in grs[1..];
      if grs[0].groupId == groupId && grs[0].resourceId in ids then rest else [grs[0]] + rest
  }

  /** `delete from groups_resources where group_id = :groupId`. */
  function DeleteGrantsOfGroup(grs: seq<GroupResource>, groupId: nat): (r: seq<GroupResource>)
    ensures forall g :: g in r <==> g in grs && g.groupId != groupId
    ensures GrantsUnique(grs) ==> GrantsUnique(r)
  {
    if |grs| == 0 then []
    else
      var rest := DeleteGrantsOfGroup(grs[1..], groupId);
      assert forall g :: g in grs <==> g == grs[0] || g in grs[1..];
      if grs[0].groupId == groupId then rest else [grs[0]] + rest
  }

  /** `update groups_resources set write, update, delete where group_id = :groupId and resource_id = :resourceId`. */
  function SetGrantFlags(grs: seq<GroupResource>, groupId: nat, resourceId: nat, f: Flags): (r: seq<GroupResource>)
    ensures |r| == |grs|
    ensures forall i :: 0 <= i < |grs| ==>
      && r[i].groupId == grs[i].groupId && r[i].resourceId == grs[i].resourceId
      && (grs[i].groupId == groupId && grs[i].resourceId == resourceId ==>
            r[i].write == f.write && r[i].update == f.update && r[i].delete == f.del)
      && (grs[i].groupId != groupId || grs[i].resourceId != resourceId ==> r[i] == grs[i])
  {
    seq(|grs|, i requires 0 <= i < |grs| =>
      if grs[i].groupId == groupId && grs[i].resourceId == resourceId
      then grs[i].(write := f.write, update := f.update, delete := f.del)
      else grs[i])
  }

  /** `delete from groups where id = :id`. */
  function DeleteGroupRow(groups: seq<Group>, id: nat): (r: seq<Group>)
    ensures forall g :: g in r <==> g in groups && g.id != id
    ensures GroupKeysUnique(groups) ==> GroupKeysUnique(r)
  {
    if |groups| == 0 then []
    else
      var rest := DeleteGroupRow(groups[1..], id);
      assert forall g :: g in groups <==> g == groups[0] || g in groups[1..];
      if groups[0].id == id then rest else [groups[0]] + rest
  }

  /** Saving an existing group: its row is replaced; the unique name constraint may refuse it. */
  function SaveGroup(t: Tables, g: Group): (r: Outcome<Tables>)
    ensures r.Ok? <==> forall i :: 0 <= i < |t.groups| && t.groups[i].id != g.id ==> t.groups[i].name != g.name
    ensures r.Ok? ==> r.value.users == t.users && r.value.resources == t.resources &&
                      r.value.groupUsers == t.groupUsers && r.value.groupResources == t.groupResources
    ensures r.Ok? ==> |r.value.groups| == |t.groups| && forall i :: 0 <= i < |t.groups| ==>
      r.value.groups[i] == if t.groups[i].id == g.id then g else t.groups[i]
  {
    if forall i :: 0 <= i < |t.groups| && t.groups[i].id != g.id ==> t.groups[i].name != g.name then
      Ok(t.(groups := seq(|t.groups|, i requires 0 <= i < |t.groups| => if t.groups[i].id == g.id then g else t.groups[i])))
    else Err(ConstraintViolation)
  }

  /**
   * Inserting a new group row; the `description` column is NOT NULL without a
   * default, so a row without one is refused, and so is a name already in use.
   */
  function InsertGroup(t: Tables, g: Group): (r: Outcome<Tables>)
    ensures r.Ok? <==> g.description.Some? && forall i :: 0 <= i < |t.groups| ==> t.groups[i].name != g.name
    ensures r.Ok? ==> r.value == t.(groups := t.groups + [g])
  {
    if g.description.Some? && forall i :: 0 <= i < |t.groups| ==> t.groups[i].name != g.name then Ok(t.(groups := t.groups + [g]))
    else Err(ConstraintViolation)
  }

  /** The primary key and the unique name of groups. */
  predicate GroupKeysUnique(groups: seq<Group>) {
    forall i, j :: 0 <= i < j < |groups| ==> groups[i].id != groups[j].id && groups[i].name != groups[j].name
  }

  lemma FindGroupSameIds(a: seq<Group>, b: seq<Group>)
    requires |a| == |b| && forall i :: 0 <= i < |a| ==> a[i].id == b[i].id
    ensures forall id :: FindGroup(a, id).Some? <==> FindGroup(b, id).Some?
  {
    forall id
      ensures FindGroup(a, id).Some? <==> FindGroup(b, id).Some?
    {
      if FindGroup(a, id).Some? {
        var i :| 0 <= i < |a| && a[i] == FindGroup(a, id).value;
        assert b[i].id == id;
      }
      if FindGroup(b, id).Some? {
        var i :| 0 <= i < |b| && b[i] == FindGroup(b, id).value;
        assert a[i].id == id;
      }
    }
  }

  lemma FindGroupAfterDelete(groups: seq<Group>, id: nat, x: nat)
    requires x != id
    ensures FindGroup(DeleteGroupRow(groups, id), x).Some? <==> FindGroup(groups, x).Some?
  {
    var r := DeleteGroupRow(groups, id);
    if FindGroup(groups, x).Some? {
      var g := FindGroup(groups, x).value;
      assert g in r;
      var i :| 0 <= i < |r| && r[i] == g;
    }
    if FindGroup(r, x).Some? {
      var g := FindGroup(r, x).value;
      assert g in groups;
      var i :| 0 <= i < |groups| && groups[i] == g;
    }
  }

  /** Saving an existing group under a free name keeps every constraint. */
  lemma SaveGroupKeepsWellFormed(t: Tables, g: Group)
    requires WellFormed(t) && SaveGroup(t, g).Ok?
    requires exists i :: 0 <= i < |t.groups| && t.groups[i].id == g.id
    ensures WellFormed(SaveGroup(t, g).value)
  {
    var t' := SaveGroup(t, g).value;
    FindGroupSameIds(t.groups, t'.groups);
  }

  /** Inserting a group with a fresh positive id under a free name keeps every constraint. */
  lemma InsertGroupKeepsWellFormed(t: Tables, g: Group)
    requires WellFormed(t) && InsertGroup(t, g).Ok?
    requires g.id > 0 && forall i :: 0 <= i < |t.groups| ==> t.groups[i].id != g.id
    ensures WellFormed(InsertGroup(t, g).value)
  {
    var t' := InsertGroup(t, g).value;
    forall x | FindGroup(t.groups, x).Some?
      ensures FindGroup(t'.groups, x).Some?
    {
      var h := FindGroup(t.groups, x).value;
      assert h in t'.groups;
      var i :| 0 <= i < |t'.groups| && t'.groups[i] == h;
    }
  }

  /** Changing the flags of grants keeps every constraint. */
  lemma SetGrantFlagsKeepsWellFormed(t: Tables, groupId: nat, resourceId: nat, f: Flags)
    requires WellFormed(t)
    ensures WellFormed(t.(groupResources := SetGrantFlags(t.groupResources, groupId, resourceId, f)))
  {
  }

  /** Deleting association rows keeps every constraint. */
  lemma DeleteAssociationsKeepWellFormed(t: Tables, gus: seq<GroupUser>, grs: seq<GroupResource>)
    requires WellFormed(t)
    requires MembershipsUnique(gus) && GrantsUnique(grs)
    requires forall m :: m in gus ==> m in t.groupUsers
    requires forall g :: g in grs ==> g in t.groupResources
    ensures WellFormed(t.(groupUsers := gus, groupResources := grs))
  {
    var t' := t.(groupUsers := gus, groupResources := grs);
    forall i | 0 <= i < |gus|
      ensures FindUser(t.users, gus[i].userId).Some? && FindGroup(t.groups, gus[i].groupId).Some?
    {
      assert gus[i] in t.groupUsers;
      var j :| 0 <= j < |t.groupUsers| && t.groupUsers[j] == gus[i];
    }
    forall i | 0 <= i < |grs|
      ensures FindGroup(t.groups, grs[i].groupId).Some? && FindResource(t.resources, grs[i].resourceId).Some?
    {
      assert grs[i] in t.groupResources;
      var j :| 0 <= j < |t.groupResources| && t.groupResources[j] == grs[i];
    }
  }

  /** Deleting a group row that no association references keeps every constraint. */
  lemma DeleteGroupKeepsWellFormed(t: Tables, id: nat)
    requires WellFormed(t)
    requires forall m :: m in t.groupUsers ==> m.groupId != id
    requires forall g :: g in t.groupResources ==> g.groupId != id
    ensures WellFormed(t.(groups := DeleteGroupRow(t.groups, id)))
  {
    var groups := DeleteGroupRow(t.groups, id);
    assert GroupKeysUnique(t.groups);
    forall i | 0 <= i < |groups|
      ensures groups[i].id > 0
    {
      assert groups[i] in t.groups;
    }
    forall i | 0 <= i < |t.groupUsers|
      ensures FindGroup(groups, t.groupUsers[i].groupId).Some?
    {
      assert t.groupUsers[i] in t.groupUsers;
      FindGroupAfterDelete(t.groups, id, t.groupUsers[i].groupId);
    }
    forall i | 0 <= i < |t.groupResources|
      ensures FindGroup(groups, t.groupResources[i].groupId).Some?
    {
      assert t.groupResources[i] in t.groupResources;
      FindGroupAfterDelete(t.groups, id, t.groupResources[i].groupId);
    }
  }
}
