/**
 * The group business model: splitting the submitted user and resource items by
 * operation tag, the response built from a stored group, the rename check, and
 * the transactions that create, update and delete a group together with the
 * rebuild of the authorisation cache that follows them.
 */
module GroupModel {
  import opened Wrappers
  import opened Strings
  import opened Entities
  import opened UserRepository
  import opened AuthorizationCache
  import opened GroupTables
  import Seqs

  /** The operation tags of GroupUserOperation and GroupResourceOperation. */
  const CreateTag: string := "c"
  const UpdateTag: string := "u"
  const DeleteTag: string := "d"

  const NameInUseMessage: string := "Group name alredy in use. Choose another one."

  datatype GroupUserData = GroupUserData(id: nat, name: Option<string>, email: Option<string>, operation: Option<string>)

  datatype GroupResourceData = GroupResourceData(id: nat, name: Option<string>, permissions: Flags, operation: Option<string>)

  /** The request body of a group; `users` and `resources` may be absent. */
  datatype GroupData = GroupData(id: Option<nat>, name: string, blocked: Option<bool>, description: Option<string>,
                                 users: Option<seq<GroupUserData>>, resources: Option<seq<GroupResourceData>>)

  /** The membership row a user item denotes. */
  function MembershipOf(groupId: nat, x: GroupUserData): GroupUser {
    GroupUser(x.id, groupId)
  }

  /** The grant row a resource item denotes: `delete` is copied from `permissions.del`. */
  function GrantOf(groupId: nat, x: GroupResourceData): GroupResource {
    GroupResource(groupId, x.id, x.permissions.write, x.permissions.update, x.permissions.del)
  }

  // ---------------------------------------------------------------------------
  // Splitting the items by operation tag
  // ---------------------------------------------------------------------------

  datatype UserOperations = UserOperations(newUsers: seq<GroupUser>, delUsers: seq<nat>)

  /** extractUserOperationsFromGroupData: `c` items become memberships of the group, `d` items give user ids to remove. */
  function ExtractUserOperations(groupId: nat, users: seq<GroupUserData>): (r: UserOperations)
    ensures forall m :: m in r.newUsers <==>
      exists x :: x in users && x.operation == Some(CreateTag) && m == MembershipOf(groupId, x)
    ensures forall id :: id in r.delUsers <==>
      exists x :: x in users && x.operation == Some(DeleteTag) && x.id == id
  {
    if |users| == 0 then UserOperations([], [])
    else
      var init := users[..|users| - 1];
      var x := users[|users| - 1];
      var rest := ExtractUserOperations(groupId, init);
      assert forall y :: y in users <==> y in init || y == x;
      if x.operation == Some(CreateTag) then rest.(newUsers := rest.newUsers + [MembershipOf(groupId, x)])
      else if x.operation == Some(DeleteTag) then rest.(delUsers := rest.delUsers + [x.id])
      else rest
  }

  /** An item tagged `u`, or with no tag, leaves both lists as they were. */
  lemma UserItemWithoutEffect(groupId: nat, users: seq<GroupUserData>, x: GroupUserData)
    requires x.operation != Some(CreateTag) && x.operation != Some(DeleteTag)
    ensures ExtractUserOperations(groupId, users + [x]) == ExtractUserOperations(groupId, users)
  {
    assert (users + [x])[..|users|] == users;
  }

  /** Appending an item appends to the list its tag selects, so each list keeps the submitted order. */
  lemma UserItemAppended(groupId: nat, users: seq<GroupUserData>, x: GroupUserData)
    ensures var before, after := ExtractUserOperations(groupId, users), ExtractUserOperations(groupId, users + [x]);
      && after.newUsers == before.newUsers + (if x.operation == Some(CreateTag) then [MembershipOf(groupId, x)] else [])
      && after.delUsers == before.delUsers + (if x.operation == Some(DeleteTag) then [x.id] else [])
  {
    assert (users + [x])[..|users|] == users;
  }

  datatype ResourceOperations = ResourceOperations(newResources: seq<GroupResource>, updates: seq<GroupResourceData>,
                                                   delResources: seq<nat>)

  /**
   * extractResourcesOperationsFromGroupData: `c` items become grants of the group,
   * `u` items are passed on unchanged, `d` items with a non-zero id give the
   * resource ids to remove; any other tag is dropped.
   */
  function ExtractResourceOperations(groupId: nat, resources: seq<GroupResourceData>): (r: ResourceOperations)
    ensures forall g :: g in r.newResources <==>
      exists x :: x in resources && x.operation == Some(CreateTag) && g == GrantOf(groupId, x)
    ensures forall x :: x in r.updates <==> x in resources && x.operation == Some(UpdateTag)
    ensures forall id :: id in r.delResources <==>
      exists x :: x in resources && x.operation == Some(DeleteTag) && x.id != 0 && x.id == id
    ensures 0 !in r.delResources
  {
    if |resources| == 0 then ResourceOperations([], [], [])
    else
      var init := resources[..|resources| - 1];
      var x := resources[|resources| - 1];
      var rest := ExtractResourceOperations(groupId, init);
      assert forall y :: y in resources <==> y in init || y == x;
      if x.operation == Some(CreateTag) then rest.(newResources := rest.newResources + [GrantOf(groupId, x)])
      else if x.operation == Some(UpdateTag) then rest.(updates := rest.updates + [x])
      else if x.operation == Some(DeleteTag) && x.id != 0 then rest.(delResources := rest.delResources + [x.id])
      else rest
  }

  /** Appending an item appends to the list its tag selects. */
  lemma ResourceItemAppended(groupId: nat, resources: seq<GroupResourceData>, x: GroupResourceData)
    ensures var before, after := ExtractResourceOperations(groupId, resources),
                                 ExtractResourceOperations(groupId, resources + [x]);
      && after.newResources == before.newResources + (if x.operation == Some(CreateTag) then [GrantOf(groupId, x)] else [])
      && after.updates == before.updates + (if x.operation == Some(UpdateTag) then [x] else [])
      && after.delResources == before.delResources +
           (if x.operation == Some(DeleteTag) && x.id != 0 then [x.id] else [])
  {
    assert (resources + [x])[..|resources|] == resources;
  }

  // ---------------------------------------------------------------------------
  // The response built from a stored group
  // ---------------------------------------------------------------------------

  function UserItem(u: User): GroupUserData {
    GroupUserData(u.id, Some(u.name), Some(u.email), None)
  }

  function ResourceItem(r: Resource, gr: GroupResource): GroupResourceData {
    GroupResourceData(r.id, Some(r.name), Flags(gr.write, gr.update, gr.delete), None)
  }

  /** The members of group `groupId`, each with the columns of its user row, in table order. */
  function MemberItems(t: Tables, gus: seq<GroupUser>, groupId: nat): (items: seq<GroupUserData>)
    requires forall i :: 0 <= i < |gus| ==> FindUser(t.users, gus[i].userId).Some?
    ensures forall x :: x in items <==>
      exists i :: 0 <= i < |gus| && gus[i].groupId == groupId && x == UserItem(FindUser(t.users, gus[i].userId).value)
  {
    if |gus| == 0 then []
    else
      var init := gus[..|gus| - 1];
      var rest := MemberItems(t, init, groupId);
      assert forall i :: 0 <= i < |init| ==> init[i] == gus[i];
      var m := gus[|gus| - 1];
      if m.groupId == groupId then rest + [UserItem(FindUser(t.users, m.userId).value)] else rest
  }

  /** The grants of group `groupId`, each with its resource's id and name, in table order. */
  function GrantItems(t: Tables, grs: seq<GroupResource>, groupId: nat): (items: seq<GroupResourceData>)
    requires forall i :: 0 <= i < |grs| ==> FindResource(t.resources, grs[i].resourceId).Some?
    ensures forall x :: x in items <==>
      exists i :: 0 <= i < |grs| && grs[i].groupId == groupId &&
                  x == ResourceItem(FindResource(t.resources, grs[i].resourceId).value, grs[i])
  {
    if |grs| == 0 then []
    else
      var init := grs[..|grs| - 1];
      var rest := GrantItems(t, init, groupId);
      assert forall i :: 0 <= i < |init| ==> init[i] == grs[i];
      var gr := grs[|grs| - 1];
      if gr.groupId == groupId then rest + [ResourceItem(FindResource(t.resources, gr.resourceId).value, gr)] else rest
  }

  /** groupDataBuilder, applied to a group fetched with its memberships and grants. */
  function GroupDataBuilder(t: Tables, g: Group): (r: GroupData)
    requires ForeignKeys(t)
    ensures r.id == Some(g.id) && r.name == g.name && r.blocked == Some(g.blocked) && r.description == g.description
    ensures r.users.Some? && r.resources.Some?
  {
    GroupData(Some(g.id), g.name, Some(g.blocked), g.description,
              Some(MemberItems(t, t.groupUsers, g.id)), Some(GrantItems(t, t.groupResources, g.id)))
  }

  /** The built response lists exactly the group's members. */
  lemma BuilderListsMembers(t: Tables, g: Group, userId: nat)
    requires ForeignKeys(t)
    ensures (exists x :: x in GroupDataBuilder(t, g).users.value && x.id == userId) <==> GroupUser(userId, g.id) in t.groupUsers
  {
    var items := GroupDataBuilder(t, g).users.value;
    if exists x :: x in items && x.id == userId {
      var x :| x in items && x.id == userId;
      var i :| 0 <= i < |t.groupUsers| && t.groupUsers[i].groupId == g.id &&
               x == UserItem(FindUser(t.users, t.groupUsers[i].userId).value);
      assert t.groupUsers[i].userId == userId;
      assert t.groupUsers[i] == GroupUser(userId, g.id);
      assert t.groupUsers[i] in t.groupUsers;
    }
    if GroupUser(userId, g.id) in t.groupUsers {
      var i :| 0 <= i < |t.groupUsers| && t.groupUsers[i] == GroupUser(userId, g.id);
      assert UserItem(FindUser(t.users, userId).value) in items;
    }
  }

  /** The built response lists exactly the group's grants, with `del` read from the `delete` column. */
  lemma BuilderListsGrants(t: Tables, g: Group, gr: GroupResource)
    requires ForeignKeys(t)
    ensures gr in t.groupResources && gr.groupId == g.id ==>
      exists x :: x in GroupDataBuilder(t, g).resources.value && x.id == gr.resourceId &&
                  x.permissions == Flags(gr.write, gr.update, gr.delete)
    ensures forall x :: x in GroupDataBuilder(t, g).resources.value ==>
      exists row :: row in t.groupResources && row.groupId == g.id && row.resourceId == x.id &&
                    x.permissions == Flags(row.write, row.update, row.delete)
  {
    var items := GroupDataBuilder(t, g).resources.value;
    if gr in t.groupResources && gr.groupId == g.id {
      var i :| 0 <= i < |t.groupResources| && t.groupResources[i] == gr;
      assert ResourceItem(FindResource(t.resources, gr.resourceId).value, gr) in items;
    }
    forall x | x in items
      ensures exists row :: row in t.groupResources && row.groupId == g.id && row.resourceId == x.id &&
                            x.permissions == Flags(row.write, row.update, row.delete)
    {
      var i :| 0 <= i < |t.groupResources| && t.groupResources[i].groupId == g.id &&
               x == ResourceItem(FindResource(t.resources, t.groupResources[i].resourceId).value, t.groupResources[i]);
      assert t.groupResources[i] in t.groupResources;
    }
  }

  // ---------------------------------------------------------------------------
  // The rename check
  // ---------------------------------------------------------------------------

  function CountGroupsNamed(groups: seq<Group>, name: string): (n: nat)
    ensures n > 0 <==> exists i :: 0 <= i < |groups| && groups[i].name == name
    ensures n <= |groups|
  {
    if |groups| == 0 then 0
    else
      var rest := CountGroupsNamed(groups[1..], name);
      assert forall i :: 1 <= i < |groups| ==> groups[1..][i - 1] == groups[i];
      (if groups[0].name == name then 1 else 0) + rest
  }

  /** groupNameExists: whether some group has the name, and the message to show when one does. */
  function GroupNameExists(groups: seq<Group>, name: string): (r: (bool, Option<string>))
    ensures r.0 <==> exists i :: 0 <= i < |groups| && groups[i].name == name
    ensures r.1.Some? <==> r.0
    ensures r.1.Some? ==> r.1.value == NameInUseMessage
  {
    var n := CountGroupsNamed(groups, name);
    (n > 0, if n > 0 then Some(NameInUseMessage) else None)
  }

  /** The stored row the update names, if there is one (`findOneOrFail`). */
  function StoredGroup(t: Tables, data: GroupData): (r: Option<Group>)
    ensures r.Some? ==> r.value in t.groups && Some(r.value.id) == data.id
    ensures r.None? ==> data.id.None? || forall i :: 0 <= i < |t.groups| ==> t.groups[i].id != data.id.value
  {
    if data.id.None? then None else FindGroup(t.groups, data.id.value)
  }

  /**
   * validateUpdateOperation: fails when the group does not exist; rejects with the
   * name-in-use message iff the name changes to one some group already has.
   */
  function ValidateUpdateOperation(t: Tables, data: GroupData): (r: Outcome<(bool, Option<string>)>)
    ensures r.Err? <==> StoredGroup(t, data).None?
    ensures r.Err? ==> r.error == EntityNotFound
    ensures r.Ok? ==> (!r.value.0 <==>
      data.name != StoredGroup(t, data).value.name && exists i :: 0 <= i < |t.groups| && t.groups[i].name == data.name)
    ensures r.Ok? ==> (r.value.1.Some? <==> !r.value.0)
  {
    match StoredGroup(t, data)
    case None => Err(EntityNotFound)
    case Some(g) =>
      if data.name != g.name then
        var (inUse, message) := GroupNameExists(t.groups, data.name);
        if inUse then Ok((false, message)) else Ok((true, None))
      else Ok((true, None))
  }

  /**
   * The stored row with the submitted columns; `blocked` defaults to false. An
   * absent description is an undefined property, which `save` does not write,
   * so the stored description stays.
   */
  function UpdatedRow(stored: Group, data: GroupData): (g: Group)
    ensures g.id == stored.id && g.name == data.name
    ensures data.description.Some? ==> g.description == data.description
    ensures data.description.None? ==> g.description == stored.description
    ensures g.blocked <==> data.blocked == Some(true)
  {
    stored.(name := data.name, blocked := data.blocked.GetOr(false),
            description := if data.description.Some? then data.description else stored.description)
  }

  /** On valid tables, the rename check accepts exactly the updates whose row the unique name constraint lets through. */
  lemma ValidationPredictsSave(t: Tables, data: GroupData)
    requires WellFormed(t) && StoredGroup(t, data).Some?
    ensures ValidateUpdateOperation(t, data).value.0 <==> SaveGroup(t, UpdatedRow(StoredGroup(t, data).value, data)).Ok?
  {
    var stored := StoredGroup(t, data).value;
    var k :| 0 <= k < |t.groups| && t.groups[k] == stored;
    if ValidateUpdateOperation(t, data).value.0 {
      forall i | 0 <= i < |t.groups| && t.groups[i].id != stored.id
        ensures t.groups[i].name != data.name
      {
        if data.name == stored.name {
          if i < k {
            assert t.groups[i].name != t.groups[k].name;
          } else if i > k {
            assert t.groups[k].name != t.groups[i].name;
          }
        }
      }
    } else {
      var i :| 0 <= i < |t.groups| && t.groups[i].name == data.name;
      assert t.groups[i].id != stored.id;
    }
  }

  // ---------------------------------------------------------------------------
  // The statements of the transactions
  // ---------------------------------------------------------------------------

  /** Removing this group's memberships of the listed users, when there are any. */
  function RemoveUsersStep(t: Tables, groupId: nat, ids: seq<nat>): (r: Tables)
    ensures r.users == t.users && r.groups == t.groups && r.resources == t.resources && r.groupResources == t.groupResources
    ensures forall m :: m in r.groupUsers <==> m in t.groupUsers && !(m.groupId == groupId && m.userId in ids)
    ensures WellFormed(t) ==> WellFormed(r)
  {
    if |ids| > 0 then
      var gus := DeleteMembershipsFromGroup(t.groupUsers, groupId, ids);
      if WellFormed(t) then DeleteAssociationsKeepWellFormed(t, gus, t.groupResources); t.(groupUsers := gus)
      else t.(groupUsers := gus)
    else t
  }

  /** The removal as the update issues it: `where user_id in (ids)`, with no condition on the group. */
  function RemoveUsersStepAsWritten(t: Tables, ids: seq<nat>): (r: Tables)
    ensures r.users == t.users && r.groups == t.groups && r.resources == t.resources && r.groupResources == t.groupResources
    ensures forall m :: m in r.groupUsers <==> m in t.groupUsers && m.userId !in ids
    ensures WellFormed(t) ==> WellFormed(r)
  {
    if |ids| > 0 then
      var gus := DeleteMembershipsOfUsers(t.groupUsers, ids);
      if WellFormed(t) then DeleteAssociationsKeepWellFormed(t, gus, t.groupResources); t.(groupUsers := gus)
      else t.(groupUsers := gus)
    else t
  }

  /** When none of the listed users belongs to another group, both removals leave the same memberships. */
  lemma RemovalsAgreeWithinGroup(t: Tables, groupId: nat, ids: seq<nat>)
    requires forall m :: m in t.groupUsers && m.userId in ids ==> m.groupId == groupId
    ensures RemoveUsersStepAsWritten(t, ids) == RemoveUsersStep(t, groupId, ids)
  {
    if |ids| > 0 {
      DeletesAgreeWithinGroup(t.groupUsers, groupId, ids);
    }
  }

  /** Inserting memberships, when there are any. */
  function AddUsersStep(t: Tables, rows: seq<GroupUser>): (r: Outcome<Tables>)
    ensures r.Ok? ==> r.value == t.(groupUsers := t.groupUsers + rows)
    ensures r.Ok? && WellFormed(t) ==> WellFormed(r.value)
    ensures r.Err? ==> r.error == ConstraintViolation
  {
    if |rows| > 0 then InsertMemberships(t, rows)
    else
      assert t.groupUsers + rows == t.groupUsers;
      Ok(t)
  }

  /** Inserting grants, when there are any. */
  function AddGrantsStep(t: Tables, rows: seq<GroupResource>): (r: Outcome<Tables>)
    ensures r.Ok? ==> r.value == t.(groupResources := t.groupResources + rows)
    ensures r.Ok? && WellFormed(t) ==> WellFormed(r.value)
    ensures r.Err? ==> r.error == ConstraintViolation
  {
    if |rows| > 0 then InsertGrants(t, rows)
    else
      assert t.groupResources + rows == t.groupResources;
      Ok(t)
  }

  /** The flags the last update item for `resourceId` sets, if any item names it. */
  function LastUpdateFor(updates: seq<GroupResourceData>, resourceId: nat): (r: Option<Flags>)
    ensures r.None? <==> forall k :: 0 <= k < |updates| ==> updates[k].id != resourceId
    ensures r.Some? ==> exists k :: 0 <= k < |updates| && updates[k].id == resourceId && updates[k].permissions == r.value &&
                                    forall l :: k < l < |updates| ==> updates[l].id != resourceId
  {
    if |updates| == 0 then None
    else if updates[|updates| - 1].id == resourceId then Some(updates[|updates| - 1].permissions)
    else
      var init := updates[..|updates| - 1];
      var r := LastUpdateFor(init, resourceId);
      assert forall k :: 0 <= k < |init| ==> init[k] == updates[k];
      assert r.Some? ==> exists k :: 0 <= k < |updates| && updates[k].id == resourceId && updates[k].permissions == r.value &&
                                     forall l :: k < l < |updates| ==> updates[l].id != resourceId;
      r
  }

  /** The update statements of the `u` items, one after the other. */
  function ApplyUpdates(grs: seq<GroupResource>, groupId: nat, updates: seq<GroupResourceData>): (r: seq<GroupResource>)
    ensures |r| == |grs|
    ensures forall i :: 0 <= i < |grs| ==>
      && r[i].groupId == grs[i].groupId && r[i].resourceId == grs[i].resourceId
      && (grs[i].groupId != groupId ==> r[i] == grs[i])
      && (grs[i].groupId == groupId ==>
            match LastUpdateFor(updates, grs[i].resourceId)
            case None => r[i] == grs[i]
            case Some(f) => r[i] == grs[i].(write := f.write, update := f.update, delete := f.del))
  {
    if |updates| == 0 then grs
    else
      var last := updates[|updates| - 1];
      SetGrantFlags(ApplyUpdates(grs, groupId, updates[..|updates| - 1]), groupId, last.id, last.permissions)
  }

  /** Applying the `u` items; the rows and their keys stay where they are. */
  function UpdateGrantsStep(t: Tables, groupId: nat, updates: seq<GroupResourceData>): (r: Tables)
    ensures r.users == t.users && r.groups == t.groups && r.resources == t.resources && r.groupUsers == t.groupUsers
    ensures WellFormed(t) ==> WellFormed(r)
  {
    t.(groupResources := ApplyUpdates(t.groupResources, groupId, updates))
  }

  /** Removing this group's grants of the listed resources, when there are any. */
  function RemoveGrantsStep(t: Tables, groupId: nat, ids: seq<nat>): (r: Tables)
    ensures r.users == t.users && r.groups == t.groups && r.resources == t.resources && r.groupUsers == t.groupUsers
    ensures forall g :: g in r.groupResources <==> g in t.groupResources && !(g.groupId == groupId && g.resourceId in ids)
    ensures WellFormed(t) ==> WellFormed(r)
  {
    if |ids| > 0 then
      var grs := DeleteGrantsFromGroup(t.groupResources, groupId, ids);
      if WellFormed(t) then DeleteAssociationsKeepWellFormed(t, t.groupUsers, grs); t.(groupResources := grs)
      else t.(groupResources := grs)
    else t
  }

  // ---------------------------------------------------------------------------
  // updateGroup as a function of the tables
  // ---------------------------------------------------------------------------

  function UserOperationsOf(groupId: nat, data: GroupData): UserOperations {
    if data.users.Some? then ExtractUserOperations(groupId, data.users.value) else UserOperations([], [])
  }

  function ResourceOperationsOf(groupId: nat, data: GroupData): ResourceOperations {
    if data.resources.Some? then ExtractResourceOperations(groupId, data.resources.value) else ResourceOperations([], [], [])
  }

  /** The statements after the removal of users: add users, add grants, update grants, remove grants, save the row. */
  function FinishUpdate(t: Tables, group: Group, uo: UserOperations, ro: ResourceOperations): Outcome<Tables> {
    match AddUsersStep(t, uo.newUsers)
    case Err(e) => Err(e)
    case Ok(t2) =>
      match AddGrantsStep(t2, ro.newResources)
      case Err(e) => Err(e)
      case Ok(t3) => SaveGroup(RemoveGrantsStep(UpdateGrantsStep(t3, group.id, ro.updates), group.id, ro.delResources), group)
  }

  /** The update transaction, with the removal of users restricted to this group. */
  function UpdateGroupTables(t: Tables, data: GroupData): Outcome<Tables> {
    match StoredGroup(t, data)
    case None => Err(EntityNotFound)
    case Some(stored) =>
      FinishUpdate(RemoveUsersStep(t, stored.id, UserOperationsOf(stored.id, data).delUsers),
                   UpdatedRow(stored, data), UserOperationsOf(stored.id, data), ResourceOperationsOf(stored.id, data))
  }

  /** The update transaction as the source issues it. */
  function UpdateGroupTablesAsWritten(t: Tables, data: GroupData): Outcome<Tables> {
    match StoredGroup(t, data)
    case None => Err(EntityNotFound)
    case Some(stored) =>
      FinishUpdate(RemoveUsersStepAsWritten(t, UserOperationsOf(stored.id, data).delUsers),
                   UpdatedRow(stored, data), UserOperationsOf(stored.id, data), ResourceOperationsOf(stored.id, data))
  }

  lemma FinishUpdateKeepsWellFormed(t: Tables, group: Group, uo: UserOperations, ro: ResourceOperations)
    requires WellFormed(t) && FinishUpdate(t, group, uo, ro).Ok?
    requires exists i :: 0 <= i < |t.groups| && t.groups[i].id == group.id
    ensures WellFormed(FinishUpdate(t, group, uo, ro).value)
    ensures |FinishUpdate(t, group, uo, ro).value.groups| == |t.groups|
    ensures forall i :: 0 <= i < |t.groups| ==> FinishUpdate(t, group, uo, ro).value.groups[i].id == t.groups[i].id
  {
    var t2 := AddUsersStep(t, uo.newUsers).value;
    var t3 := AddGrantsStep(t2, ro.newResources).value;
    var t5 := RemoveGrantsStep(UpdateGrantsStep(t3, group.id, ro.updates), group.id, ro.delResources);
    SaveGroupKeepsWellFormed(t5, group);
  }

  /**
   * The update as written and the corrected one agree whenever none of the
   * users tagged `d` belongs to another group, in particular when no users are sent.
   */
  lemma UpdateAsWrittenAgreesWithinGroup(t: Tables, data: GroupData)
    requires StoredGroup(t, data).Some?
    requires forall m :: m in t.groupUsers && m.userId in UserOperationsOf(StoredGroup(t, data).value.id, data).delUsers ==>
      m.groupId == StoredGroup(t, data).value.id
    ensures UpdateGroupTablesAsWritten(t, data) == UpdateGroupTables(t, data)
  {
    var stored := StoredGroup(t, data).value;
    RemovalsAgreeWithinGroup(t, stored.id, UserOperationsOf(stored.id, data).delUsers);
  }

  /** A successful update as written keeps every constraint and every group id. */
  lemma UpdateAsWrittenKeepsWellFormed(t: Tables, data: GroupData)
    requires WellFormed(t) && UpdateGroupTablesAsWritten(t, data).Ok?
    ensures WellFormed(UpdateGroupTablesAsWritten(t, data).value)
    ensures |UpdateGroupTablesAsWritten(t, data).value.groups| == |t.groups|
    ensures forall i :: 0 <= i < |t.groups| ==> UpdateGroupTablesAsWritten(t, data).value.groups[i].id == t.groups[i].id
  {
    var stored := StoredGroup(t, data).value;
    var k :| 0 <= k < |t.groups| && t.groups[k] == stored;
    var t1 := RemoveUsersStepAsWritten(t, UserOperationsOf(stored.id, data).delUsers);
    assert t1.groups[k].id == UpdatedRow(stored, data).id;
    FinishUpdateKeepsWellFormed(t1, UpdatedRow(stored, data), UserOperationsOf(stored.id, data), ResourceOperationsOf(stored.id, data));
  }

  /** A successful update keeps every constraint and every group id. */
  lemma UpdateKeepsWellFormed(t: Tables, data: GroupData)
    requires WellFormed(t) && UpdateGroupTables(t, data).Ok?
    ensures WellFormed(UpdateGroupTables(t, data).value)
    ensures |UpdateGroupTables(t, data).value.groups| == |t.groups|
    ensures forall i :: 0 <= i < |t.groups| ==> UpdateGroupTables(t, data).value.groups[i].id == t.groups[i].id
  {
    var stored := StoredGroup(t, data).value;
    var k :| 0 <= k < |t.groups| && t.groups[k] == stored;
    var t1 := RemoveUsersStep(t, stored.id, UserOperationsOf(stored.id, data).delUsers);
    assert t1.groups[k].id == UpdatedRow(stored, data).id;
    FinishUpdateKeepsWellFormed(t1, UpdatedRow(stored, data), UserOperationsOf(stored.id, data), ResourceOperationsOf(stored.id, data));
  }

  /** The grant statements of an update add or change only rows of the group. */
  lemma GrantStepsStayInGroup(t: Tables, groupId: nat, rows: seq<GroupResource>, ro: ResourceOperations)
    requires forall g :: g in rows ==> g.groupId == groupId
    ensures var t5 := RemoveGrantsStep(UpdateGrantsStep(t.(groupResources := t.groupResources + rows), groupId, ro.updates),
                                       groupId, ro.delResources);
      forall g :: g in t5.groupResources ==> g.groupId == groupId || g in t.groupResources
  {
    var t3 := t.(groupResources := t.groupResources + rows);
    var t4 := UpdateGrantsStep(t3, groupId, ro.updates);
    var t5 := RemoveGrantsStep(t4, groupId, ro.delResources);
    forall g | g in t5.groupResources
      ensures g.groupId == groupId || g in t.groupResources
    {
      assert g in t4.groupResources;
      var i :| 0 <= i < |t4.groupResources| && t4.groupResources[i] == g;
      if g.groupId != groupId {
        assert t3.groupResources[i] == g;
      }
    }
  }

  /** The grant statements of an update keep every row of other groups. */
  lemma GrantStepsKeepOtherGroups(t: Tables, groupId: nat, rows: seq<GroupResource>, ro: ResourceOperations)
    ensures var t5 := RemoveGrantsStep(UpdateGrantsStep(t.(groupResources := t.groupResources + rows), groupId, ro.updates),
                                       groupId, ro.delResources);
      forall g :: g in t.groupResources && g.groupId != groupId ==> g in t5.groupResources
  {
    var t3 := t.(groupResources := t.groupResources + rows);
    var t4 := UpdateGrantsStep(t3, groupId, ro.updates);
    forall g | g in t.groupResources && g.groupId != groupId
      ensures g in t4.groupResources
    {
      var i :| 0 <= i < |t.groupResources| && t.groupResources[i] == g;
      assert t3.groupResources[i] == g;
      assert t4.groupResources[i] == g;
    }
  }

  /** The rows FinishUpdate leaves: the memberships plus the inserted ones, and the grants of other groups untouched. */
  lemma FinishUpdateRows(t: Tables, group: Group, uo: UserOperations, ro: ResourceOperations)
    requires FinishUpdate(t, group, uo, ro).Ok?
    requires forall g :: g in ro.newResources ==> g.groupId == group.id
    ensures FinishUpdate(t, group, uo, ro).value.groupUsers == t.groupUsers + uo.newUsers
    ensures FinishUpdate(t, group, uo, ro).value.users == t.users
    ensures FinishUpdate(t, group, uo, ro).value.resources == t.resources
    ensures forall g :: g in FinishUpdate(t, group, uo, ro).value.groupResources ==>
      g.groupId == group.id || g in t.groupResources
    ensures forall g :: g in t.groupResources && g.groupId != group.id ==> g in FinishUpdate(t, group, uo, ro).value.groupResources
  {
    var t2 := AddUsersStep(t, uo.newUsers).value;
    GrantStepsStayInGroup(t2, group.id, ro.newResources, ro);
    GrantStepsKeepOtherGroups(t2, group.id, ro.newResources, ro);
  }

  /**
   * The update touches only rows of its own group: every membership and every
   * grant of another group is kept, and none is added.
   */
  lemma UpdateLeavesOtherGroups(t: Tables, data: GroupData)
    requires UpdateGroupTables(t, data).Ok?
    ensures var t' := UpdateGroupTables(t, data).value; var id := StoredGroup(t, data).value.id;
      && (forall m: GroupUser :: m.groupId != id ==> (m in t'.groupUsers <==> m in t.groupUsers))
      && (forall g: GroupResource :: g.groupId != id ==> (g in t'.groupResources <==> g in t.groupResources))
      && t'.users == t.users && t'.resources == t.resources
  {
    var stored := StoredGroup(t, data).value;
    var uo, ro := UserOperationsOf(stored.id, data), ResourceOperationsOf(stored.id, data);
    var t1 := RemoveUsersStep(t, stored.id, uo.delUsers);
    FinishUpdateRows(t1, UpdatedRow(stored, data), uo, ro);
    assert forall m :: m in uo.newUsers ==> m.groupId == stored.id;
  }

  /** The update as written: removing user 7 from group 1 also removes user 7 from group 2. */
  lemma RemovalLeaksToOtherGroups()
    ensures var t := Tables([User(7, "u", "u@x", "h", false, None, None)],
                            [Group(1, "one", None, false), Group(2, "two", None, false)], [],
                            [GroupUser(7, 1), GroupUser(7, 2)], []);
            var data := GroupData(Some(1), "one", None, None, Some([GroupUserData(7, None, None, Some(DeleteTag))]), None);
      && UpdateGroupTablesAsWritten(t, data).Ok?
      && GroupUser(7, 2) in t.groupUsers
      && GroupUser(7, 2) !in UpdateGroupTablesAsWritten(t, data).value.groupUsers
  {
    var t := Tables([User(7, "u", "u@x", "h", false, None, None)],
                    [Group(1, "one", None, false), Group(2, "two", None, false)], [],
                    [GroupUser(7, 1), GroupUser(7, 2)], []);
    var data := GroupData(Some(1), "one", None, None, Some([GroupUserData(7, None, None, Some(DeleteTag))]), None);
    var stored := Group(1, "one", None, false);
    assert StoredGroup(t, data) == Some(stored);
    var uo := UserOperationsOf(1, data);
    UserItemAppended(1, [], GroupUserData(7, None, None, Some(DeleteTag)));
    assert [] + [GroupUserData(7, None, None, Some(DeleteTag))] == data.users.value;
    assert uo == UserOperations([], [7]);
    assert ResourceOperationsOf(1, data) == ResourceOperations([], [], []);
    var t1 := RemoveUsersStepAsWritten(t, [7]);
    assert GroupUser(7, 2) !in t1.groupUsers;
    FinishUpdateRows(t1, UpdatedRow(stored, data), uo, ResourceOperationsOf(1, data));
    assert SaveGroup(t1, UpdatedRow(stored, data)).Ok?;
  }

  // ---------------------------------------------------------------------------
  // Which transactions change the fetched tuples
  // ---------------------------------------------------------------------------

  /** No membership or grant refers to a group id that no group row has. */
  lemma UnknownGroupUnreferenced(t: Tables, id: nat)
    requires ForeignKeys(t)
    requires forall i :: 0 <= i < |t.groups| ==> t.groups[i].id != id
    ensures forall m :: m in t.groupUsers ==> m.groupId != id
    ensures forall g :: g in t.groupResources ==> g.groupId != id
  {
    forall m | m in t.groupUsers
      ensures m.groupId != id
    {
      var i :| 0 <= i < |t.groupUsers| && t.groupUsers[i] == m;
    }
    forall g | g in t.groupResources
      ensures g.groupId != id
    {
      var i :| 0 <= i < |t.groupResources| && t.groupResources[i] == g;
    }
  }

  /** Replacing a group row by one with the same id and the same `blocked` keeps every join path. */
  lemma SameIdAndBlockedSameReachable(t: Tables, k: nat, g: Group)
    requires EntityKeys(t) && k < |t.groups|
    requires g.id == t.groups[k].id && g.blocked == t.groups[k].blocked
    ensures var t' := t.(groups := seq(|t.groups|, i requires 0 <= i < |t.groups| =>
                                        if t.groups[i].id == g.id then g else t.groups[i]));
      forall p :: Reachable(t', p) <==> Reachable(t, p)
  {
    var t' := t.(groups := seq(|t.groups|, i requires 0 <= i < |t.groups| =>
                                if t.groups[i].id == g.id then g else t.groups[i]));
    assert forall i :: 0 <= i < |t.groups| && t.groups[i].id == g.id ==> i == k;
    forall p
      ensures Reachable(t', p) <==> Reachable(t, p)
    {
      if Reachable(t', p) {
        var gu, gr, u, h, r :| && gu in t'.groupUsers && gr in t'.groupResources
                               && u in t'.users && h in t'.groups && r in t'.resources
                               && Joined(gu, gr, u, h, r) && p == Projected(u, h, r, gr);
        var i := Seqs.IndexOf(t'.groups, h);
        assert Joined(gu, gr, u, t.groups[i], r) && p == Projected(u, t.groups[i], r, gr);
      }
      if Reachable(t, p) {
        var gu, gr, u, h, r :| && gu in t.groupUsers && gr in t.groupResources
                               && u in t.users && h in t.groups && r in t.resources
                               && Joined(gu, gr, u, h, r) && p == Projected(u, h, r, gr);
        var i := Seqs.IndexOf(t.groups, h);
        assert Joined(gu, gr, u, t'.groups[i], r) && p == Projected(u, t'.groups[i], r, gr);
      }
    }
  }

  /** updateGroup as written rebuilds the cache iff users or resources were submitted. */
  predicate RebuildOnUpdateAsWritten(data: GroupData) {
    data.users.Some? || data.resources.Some?
  }

  /** The corrected trigger: also rebuild when the group's `blocked` changes. */
  predicate RebuildOnUpdate(data: GroupData, stored: Group) {
    RebuildOnUpdateAsWritten(data) || UpdatedRow(stored, data).blocked != stored.blocked
  }

  /** Without a rebuild under the corrected trigger, the tuples a rebuild would fetch are the same as before. */
  lemma NoRebuildKeepsProjection(t: Tables, data: GroupData)
    requires WellFormed(t) && UpdateGroupTables(t, data).Ok?
    requires !RebuildOnUpdate(data, StoredGroup(t, data).value)
    ensures Projection(UpdateGroupTables(t, data).value) == Projection(t)
  {
    var stored := StoredGroup(t, data).value;
    var group := UpdatedRow(stored, data);
    var k := Seqs.IndexOf(t.groups, stored);
    var t' := UpdateGroupTables(t, data).value;
    assert t' == t.(groups := seq(|t.groups|, i requires 0 <= i < |t.groups| =>
                                  if t.groups[i].id == group.id then group else t.groups[i])) by {
      assert ApplyUpdates(t.groupResources, stored.id, []) == t.groupResources;
      assert UpdateGroupTables(t, data) == SaveGroup(t, group);
    }
    assert forall p :: Reachable(t', p) <==> Reachable(t, p) by {
      SameIdAndBlockedSameReachable(t, k, group);
    }
    assert WellFormed(t') by {
      UpdateKeepsWellFormed(t, data);
    }
    SameReachableSameProjection(t, t');
  }

  /** One user in one group holding one grant on `/users`. */
  const OneGrantTables: Tables :=
    Tables([User(1, "admin", "admin@x", "h", false, None, None)], [Group(1, "admin", None, false)],
           [Resource(1, "/users")], [GroupUser(1, 1)], [GroupResource(1, 1, true, true, true)])

  /** The same tables with the group blocked. */
  const OneGrantBlockedTables: Tables := OneGrantTables.(groups := [Group(1, "admin", None, true)])

  /** An update that only blocks the group. */
  const BlockOnlyUpdate: GroupData := GroupData(Some(1), "admin", Some(true), None, None, None)

  const OneGrantTuple: Permission := Permission(1, "/users", 1, true, true, true)

  lemma BlockOnlyUpdateResult()
    ensures UpdateGroupTables(OneGrantTables, BlockOnlyUpdate) == Ok(OneGrantBlockedTables)
    ensures UpdateGroupTablesAsWritten(OneGrantTables, BlockOnlyUpdate) == Ok(OneGrantBlockedTables)
  {
    var t, data := OneGrantTables, BlockOnlyUpdate;
    var stored := Group(1, "admin", None, false);
    assert StoredGroup(t, data) == Some(stored);
    assert ApplyUpdates(t.groupResources, 1, []) == t.groupResources;
    var saved := SaveGroup(t, UpdatedRow(stored, data)).value;
    assert |saved.groups| == 1 && saved.groups[0] == Group(1, "admin", None, true);
    assert saved.groups == OneGrantBlockedTables.groups;
    UpdateAsWrittenAgreesWithinGroup(t, data);
  }

  lemma OneGrantTupleFetched()
    ensures Key(OneGrantTuple) in Projection(OneGrantTables)
  {
    var t := OneGrantTables;
    assert WellFormed(t);
    assert Joined(t.groupUsers[0], t.groupResources[0], t.users[0], t.groups[0], t.resources[0]);
    assert t.groupUsers[0] in t.groupUsers && t.groupResources[0] in t.groupResources;
    assert t.users[0] in t.users && t.groups[0] in t.groups && t.resources[0] in t.resources;
    assert Reachable(t, OneGrantTuple);
    PermissionsComplete(t, OneGrantTuple);
    ProjectionExact(t);
  }

  lemma BlockedTupleGone()
    ensures Key(OneGrantTuple) !in Projection(OneGrantBlockedTables)
  {
    var t' := OneGrantBlockedTables;
    assert WellFormed(t');
    assert JoinRow(t', t'.groupUsers[0], t'.groupResources[0]).None?;
    assert GetUsersPermissions(t') == [];
    ProjectionExact(t');
  }

  /**
   * The trigger as written misses a change of `blocked`: blocking the only group
   * of user 1 removes user 1's tuple, yet no rebuild follows.
   */
  lemma BlockingWithoutRebuildLeavesStaleEntry()
    ensures && !RebuildOnUpdateAsWritten(BlockOnlyUpdate)
            && UpdateGroupTablesAsWritten(OneGrantTables, BlockOnlyUpdate).Ok?
            && Key(OneGrantTuple) in Projection(OneGrantTables)
            && Key(OneGrantTuple) !in Projection(UpdateGroupTablesAsWritten(OneGrantTables, BlockOnlyUpdate).value)
    ensures RebuildOnUpdate(BlockOnlyUpdate, OneGrantTables.groups[0])
    ensures MissesRebuild(OneGrantTables, BlockOnlyUpdate)
  {
    BlockOnlyUpdateResult();
    OneGrantTupleFetched();
    BlockedTupleGone();
  }

  /** createGroup rebuilds the cache iff users and resources were both submitted. */
  predicate RebuildOnCreate(data: GroupData) {
    data.users.Some? && data.resources.Some?
  }

  /** The new group row; `blocked` defaults to false. */
  function NewGroupRow(id: nat, data: GroupData): (g: Group)
    ensures g.id == id && g.name == data.name && g.description == data.description
    ensures g.blocked <==> data.blocked == Some(true)
  {
    Group(id, data.name, data.description, data.blocked.GetOr(false))
  }

  /** Every submitted user item becomes a membership, whatever its tag. */
  function CreatedMemberships(groupId: nat, data: GroupData): (rows: seq<GroupUser>)
    ensures forall m :: m in rows ==> m.groupId == groupId
    ensures data.users.Some? ==>
      |rows| == |data.users.value| && forall i :: 0 <= i < |rows| ==> rows[i] == MembershipOf(groupId, data.users.value[i])
    ensures data.users.None? ==> rows == []
  {
    if data.users.Some? then
      seq(|data.users.value|, i requires 0 <= i < |data.users.value| => MembershipOf(groupId, data.users.value[i]))
    else []
  }

  /** Every submitted resource item becomes a grant, whatever its tag. */
  function CreatedGrants(groupId: nat, data: GroupData): (rows: seq<GroupResource>)
    ensures forall g :: g in rows ==> g.groupId == groupId
    ensures data.resources.Some? ==>
      |rows| == |data.resources.value| && forall i :: 0 <= i < |rows| ==> rows[i] == GrantOf(groupId, data.resources.value[i])
    ensures data.resources.None? ==> rows == []
  {
    if data.resources.Some? then
      seq(|data.resources.value|, i requires 0 <= i < |data.resources.value| => GrantOf(groupId, data.resources.value[i]))
    else []
  }

  /** The create transaction: the group row, then its memberships, then its grants. */
  function CreateGroupTables(t: Tables, g: Group, data: GroupData): Outcome<Tables> {
    match InsertGroup(t, g)
    case Err(e) => Err(e)
    case Ok(t1) =>
      match AddUsersStep(t1, CreatedMemberships(g.id, data))
      case Err(e) => Err(e)
      case Ok(t2) => AddGrantsStep(t2, CreatedGrants(g.id, data))
  }

  /** A created group with a fresh positive id keeps every constraint; the rows are the old ones plus the new. */
  lemma CreateKeepsWellFormed(t: Tables, g: Group, data: GroupData)
    requires WellFormed(t) && CreateGroupTables(t, g, data).Ok?
    requires g.id > 0 && forall i :: 0 <= i < |t.groups| ==> t.groups[i].id != g.id
    ensures var t' := CreateGroupTables(t, g, data).value;
      && WellFormed(t')
      && t' == Tables(t.users, t.groups + [g], t.resources, t.groupUsers + CreatedMemberships(g.id, data),
                      t.groupResources + CreatedGrants(g.id, data))
  {
    InsertGroupKeepsWellFormed(t, g);
  }

  /** Without users or without resources a new group joins no tuple, so no rebuild is needed. */
  lemma CreateWithoutRebuildKeepsProjection(t: Tables, g: Group, data: GroupData)
    requires WellFormed(t) && CreateGroupTables(t, g, data).Ok?
    requires g.id > 0 && forall i :: 0 <= i < |t.groups| ==> t.groups[i].id != g.id
    requires !RebuildOnCreate(data)
    ensures Projection(CreateGroupTables(t, g, data).value) == Projection(t)
  {
    var t' := CreateGroupTables(t, g, data).value;
    var gus, grs := CreatedMemberships(g.id, data), CreatedGrants(g.id, data);
    assert WellFormed(t') && t' == Tables(t.users, t.groups + [g], t.resources, t.groupUsers + gus, t.groupResources + grs) by {
      CreateKeepsWellFormed(t, g, data);
    }
    assert forall p :: Reachable(t', p) <==> Reachable(t, p) by {
      UnknownGroupUnreferenced(t, g.id);
      NewGroupJoinsNothing(t, g, gus, grs);
    }
    SameReachableSameProjection(t, t');
  }

  /** A new group whose memberships or grants are empty joins no user to any resource. */
  lemma NewGroupJoinsNothing(t: Tables, g: Group, gus: seq<GroupUser>, grs: seq<GroupResource>)
    requires forall m :: m in t.groupUsers ==> m.groupId != g.id
    requires forall x :: x in t.groupResources ==> x.groupId != g.id
    requires |gus| == 0 || |grs| == 0
    requires (forall m :: m in gus ==> m.groupId == g.id) && (forall x :: x in grs ==> x.groupId == g.id)
    ensures var t' := Tables(t.users, t.groups + [g], t.resources, t.groupUsers + gus, t.groupResources + grs);
      forall p :: Reachable(t', p) <==> Reachable(t, p)
  {
    var t' := Tables(t.users, t.groups + [g], t.resources, t.groupUsers + gus, t.groupResources + grs);
    forall p
      ensures Reachable(t', p) <==> Reachable(t, p)
    {
      if Reachable(t', p) {
        var gu, gr, u, h, r :| && gu in t'.groupUsers && gr in t'.groupResources
                               && u in t'.users && h in t'.groups && r in t'.resources
                               && Joined(gu, gr, u, h, r) && p == Projected(u, h, r, gr);
        assert gu in t.groupUsers || gr in t.groupResources;
        assert h.id != g.id;
        assert gu in t.groupUsers && gr in t.groupResources && h in t.groups;
      }
      if Reachable(t, p) {
        var gu, gr, u, h, r :| && gu in t.groupUsers && gr in t.groupResources
                               && u in t.users && h in t.groups && r in t.resources
                               && Joined(gu, gr, u, h, r) && p == Projected(u, h, r, gr);
        assert gu in t'.groupUsers && gr in t'.groupResources && h in t'.groups;
      }
    }
  }

  /** The tables after deleteGroupById. */
  function DeleteGroupTables(t: Tables, id: nat): Tables {
    t.(groupUsers := DeleteMembershipsOfGroup(t.groupUsers, id),
       groupResources := DeleteGrantsOfGroup(t.groupResources, id),
       groups := DeleteGroupRow(t.groups, id))
  }

  /** Deleting a group keeps every constraint and removes exactly the tuples of that group. */
  lemma DeleteGroupEffect(t: Tables, id: nat)
    requires WellFormed(t)
    ensures WellFormed(DeleteGroupTables(t, id))
    ensures forall p :: p in GetUsersPermissions(DeleteGroupTables(t, id)) <==>
      p in GetUsersPermissions(t) && p.groupId != id
  {
    var t1 := t.(groupUsers := DeleteMembershipsOfGroup(t.groupUsers, id),
                 groupResources := DeleteGrantsOfGroup(t.groupResources, id));
    DeleteAssociationsKeepWellFormed(t, t1.groupUsers, t1.groupResources);
    DeleteGroupKeepsWellFormed(t1, id);
    var t' := DeleteGroupTables(t, id);
    assert t' == t1.(groups := DeleteGroupRow(t1.groups, id));
    forall p
      ensures p in GetUsersPermissions(t') <==> p in GetUsersPermissions(t) && p.groupId != id
    {
      if p in GetUsersPermissions(t') {
        PermissionsSound(t', p);
        var gu, gr, u, h, r :| && gu in t'.groupUsers && gr in t'.groupResources
                               && u in t'.users && h in t'.groups && r in t'.resources
                               && Joined(gu, gr, u, h, r) && p == Projected(u, h, r, gr);
        assert gu in t.groupUsers && gr in t.groupResources && h in t.groups;
        PermissionsComplete(t, p);
      }
      if p in GetUsersPermissions(t) && p.groupId != id {
        PermissionsSound(t, p);
        var gu, gr, u, h, r :| && gu in t.groupUsers && gr in t.groupResources
                               && u in t.users && h in t.groups && r in t.resources
                               && Joined(gu, gr, u, h, r) && p == Projected(u, h, r, gr);
        assert gu in t'.groupUsers && gr in t'.groupResources && h in t'.groups;
        PermissionsComplete(t', p);
      }
    }
  }

  // ---------------------------------------------------------------------------
  // The transactions
  // ---------------------------------------------------------------------------

  /** The cache holds what a rebuild from the current tables would store. */
  ghost predicate Consistent(db: Database, cache: Cache)
    reads db, cache
  {
    cache.auth == Projection(db.tables)
  }

  /**
   * createGroup: the row takes the next generated id (consumed even when the
   * transaction fails); memberships and grants follow; the cache is rebuilt
   * only when users and resources were both submitted.
   */
  method CreateGroup(db: Database, cache: Cache, data: GroupData) returns (r: Outcome<Group>)
    requires db.Valid()
    modifies db, cache
    ensures db.Valid() && db.nextGroupId == old(db.nextGroupId) + 1
    ensures var g := NewGroupRow(old(db.nextGroupId), data);
      match CreateGroupTables(old(db.tables), g, data)
      case Err(e) => r == Err(e) && db.tables == old(db.tables) && cache.auth == old(cache.auth)
      case Ok(t) => r == Ok(g) && db.tables == t &&
                    cache.auth == (if RebuildOnCreate(data) then Projection(t) else old(cache.auth))
    ensures data.description.None? ==> r == Err(ConstraintViolation)
    ensures old(cache.auth) == Projection(old(db.tables)) ==> Consistent(db, cache)
  {
    var id := db.nextGroupId;
    ghost var t0 := db.tables;
    var group := NewGroupRow(id, data);
    var outcome := CreateTransaction(db.tables, group, data);
    db.nextGroupId := id + 1;
    if outcome.Err? {
      return Err(outcome.error);
    }
    CreateOutcome(t0, group, data, id);
    if !RebuildOnCreate(data) {
      CreateWithoutRebuildKeepsProjection(t0, group, data);
    }
    Commit(db, cache, outcome.value, data.users.Some? && data.resources.Some?);
    r := Ok(group);
  }

  /** The statements of the create transaction, in order, on a copy of the tables. */
  method CreateTransaction(t: Tables, group: Group, data: GroupData) returns (r: Outcome<Tables>)
    ensures r == CreateGroupTables(t, group, data)
  {
    var inserted := InsertGroup(t, group);
    if inserted.Err? {
      return Err(inserted.error);
    }
    var withUsers := AddUsersStep(inserted.value, CreatedMemberships(group.id, data));
    if withUsers.Err? {
      return Err(withUsers.error);
    }
    r := AddGrantsStep(withUsers.value, CreatedGrants(group.id, data));
  }

  /** What a successful create leaves: valid tables under the next id. */
  lemma CreateOutcome(t: Tables, g: Group, data: GroupData, next: nat)
    requires WellFormed(t) && next > 0 && forall i :: 0 <= i < |t.groups| ==> t.groups[i].id < next
    requires g.id == next && CreateGroupTables(t, g, data).Ok?
    ensures var t' := CreateGroupTables(t, g, data).value;
      && WellFormed(t')
      && (forall i :: 0 <= i < |t'.groups| ==> t'.groups[i].id < next + 1)
  {
    CreateKeepsWellFormed(t, g, data);
  }

  /** The update statements of the `u` items, issued one after the other. */
  method UpdateGrants(grs: seq<GroupResource>, groupId: nat, updates: seq<GroupResourceData>) returns (r: seq<GroupResource>)
    ensures r == ApplyUpdates(grs, groupId, updates)
  {
    r := grs;
    var i := 0;
    while i < |updates|
      invariant 0 <= i <= |updates|
      invariant r == ApplyUpdates(grs, groupId, updates[..i])
    {
      assert updates[..i + 1][..i] == updates[..i];
      r := SetGrantFlags(r, groupId, updates[i].id, updates[i].permissions);
      i := i + 1;
    }
    assert updates[..i] == updates;
  }

  /** The statements of the update transaction after the removal of users, in order. */
  method FinishTransaction(t: Tables, group: Group, uo: UserOperations, ro: ResourceOperations) returns (r: Outcome<Tables>)
    ensures r == FinishUpdate(t, group, uo, ro)
  {
    var withUsers := AddUsersStep(t, uo.newUsers);
    if withUsers.Err? {
      return Err(withUsers.error);
    }
    var current := withUsers.value;
    var withGrants := AddGrantsStep(current, ro.newResources);
    if withGrants.Err? {
      return Err(withGrants.error);
    }
    current := withGrants.value;
    var updated := UpdateGrants(current.groupResources, group.id, ro.updates);
    assert current.(groupResources := updated) == UpdateGrantsStep(current, group.id, ro.updates);
    current := RemoveGrantsStep(current.(groupResources := updated), group.id, ro.delResources);
    r := SaveGroup(current, group);
  }

  /** The statements of the update transaction as the source issues them, on a copy of the tables. */
  method UpdateTransactionAsWritten(t: Tables, data: GroupData) returns (r: Outcome<Tables>)
    ensures r == UpdateGroupTablesAsWritten(t, data)
  {
    if data.id.None? {
      return Err(EntityNotFound);
    }
    var found := FindGroup(t.groups, data.id.value);
    if found.None? {
      return Err(EntityNotFound);
    }
    var group := UpdatedRow(found.value, data);
    var uo := UserOperationsOf(group.id, data);
    var current := RemoveUsersStepAsWritten(t, uo.delUsers);
    r := FinishTransaction(current, group, uo, ResourceOperationsOf(group.id, data));
  }

  /** The statements of the corrected update transaction, on a copy of the tables. */
  method UpdateTransaction(t: Tables, data: GroupData) returns (r: Outcome<Tables>)
    ensures r == UpdateGroupTables(t, data)
  {
    if data.id.None? {
      return Err(EntityNotFound);
    }
    var found := FindGroup(t.groups, data.id.value);
    if found.None? {
      return Err(EntityNotFound);
    }
    var group := UpdatedRow(found.value, data);
    var uo := UserOperationsOf(group.id, data);
    var current := RemoveUsersStep(t, group.id, uo.delUsers);
    r := FinishTransaction(current, group, uo, ResourceOperationsOf(group.id, data));
  }

  /** The end of a successful transaction: the new tables are stored and the cache is rebuilt from them when asked. */
  method Commit(db: Database, cache: Cache, t: Tables, rebuild: bool)
    modifies db, cache
    ensures db.tables == t && db.nextGroupId == old(db.nextGroupId)
    ensures cache.auth == if rebuild then Projection(t) else old(cache.auth)
  {
    db.tables := t;
    if rebuild {
      cache.LoadAuthorizationRoles(t);
    }
  }

  /** What a successful update leaves: valid tables under the same id generator, and the projection when no rebuild runs. */
  lemma UpdateOutcome(t: Tables, data: GroupData, next: nat)
    requires WellFormed(t) && forall i :: 0 <= i < |t.groups| ==> t.groups[i].id < next
    requires UpdateGroupTables(t, data).Ok?
    ensures var t' := UpdateGroupTables(t, data).value;
      && WellFormed(t')
      && (forall i :: 0 <= i < |t'.groups| ==> t'.groups[i].id < next)
      && (!RebuildOnUpdate(data, StoredGroup(t, data).value) ==> Projection(t') == Projection(t))
  {
    UpdateKeepsWellFormed(t, data);
    if !RebuildOnUpdate(data, StoredGroup(t, data).value) {
      NoRebuildKeepsProjection(t, data);
    }
  }

  /**
   * What a successful update as written leaves: valid tables under the same id
   * generator; when not even the corrected trigger fires, the projection is unchanged.
   */
  lemma UpdateOutcomeAsWritten(t: Tables, data: GroupData, next: nat)
    requires WellFormed(t) && forall i :: 0 <= i < |t.groups| ==> t.groups[i].id < next
    requires UpdateGroupTablesAsWritten(t, data).Ok?
    ensures var t' := UpdateGroupTablesAsWritten(t, data).value;
      && WellFormed(t')
      && (forall i :: 0 <= i < |t'.groups| ==> t'.groups[i].id < next)
      && (!RebuildOnUpdate(data, StoredGroup(t, data).value) ==> Projection(t') == Projection(t))
  {
    UpdateAsWrittenKeepsWellFormed(t, data);
    if !RebuildOnUpdate(data, StoredGroup(t, data).value) {
      UpdateAsWrittenAgreesWithinGroup(t, data);
      NoRebuildKeepsProjection(t, data);
    }
  }

  /** The update changes the group's `blocked` while sending neither users nor resources, so the trigger as written skips the rebuild. */
  predicate MissesRebuild(t: Tables, data: GroupData) {
    StoredGroup(t, data).Some? && RebuildOnUpdate(data, StoredGroup(t, data).value) && !RebuildOnUpdateAsWritten(data)
  }

  /**
   * updateGroup as written: the removal of users by user id only, and a rebuild
   * iff users or resources were sent. A consistent cache stays consistent unless
   * the update only changes `blocked`.
   */
  method UpdateGroupAsWritten(db: Database, cache: Cache, data: GroupData) returns (error: Option<DbError>)
    requires db.Valid()
    modifies db, cache
    ensures db.Valid() && db.nextGroupId == old(db.nextGroupId)
    ensures match UpdateGroupTablesAsWritten(old(db.tables), data)
      case Err(e) => error == Some(e) && db.tables == old(db.tables) && cache.auth == old(cache.auth)
      case Ok(t) =>
        && error.None? && db.tables == t
        && cache.auth == (if RebuildOnUpdateAsWritten(data) then Projection(t) else old(cache.auth))
    ensures old(cache.auth) == Projection(old(db.tables)) && !MissesRebuild(old(db.tables), data) ==> Consistent(db, cache)
  {
    ghost var t0 := db.tables;
    var outcome := UpdateTransactionAsWritten(db.tables, data);
    if outcome.Err? {
      return Some(outcome.error);
    }
    var t := outcome.value;
    UpdateOutcomeAsWritten(t0, data, db.nextGroupId);
    Commit(db, cache, t, data.users.Some? || data.resources.Some?);
    error := None;
  }

  /**
   * updateGroup corrected: every statement runs in one transaction and a failing one
   * leaves the tables as they were; users are removed from this group only and
   * the cache is rebuilt under the corrected trigger, so a consistent cache stays consistent.
   */
  method UpdateGroup(db: Database, cache: Cache, data: GroupData) returns (error: Option<DbError>)
    requires db.Valid()
    modifies db, cache
    ensures db.Valid() && db.nextGroupId == old(db.nextGroupId)
    ensures match UpdateGroupTables(old(db.tables), data)
      case Err(e) => error == Some(e) && db.tables == old(db.tables) && cache.auth == old(cache.auth)
      case Ok(t) =>
        && error.None? && db.tables == t
        && cache.auth == (if RebuildOnUpdate(data, StoredGroup(old(db.tables), data).value) then Projection(t)
                          else old(cache.auth))
    ensures old(cache.auth) == Projection(old(db.tables)) ==> Consistent(db, cache)
  {
    ghost var t0 := db.tables;
    var outcome := UpdateTransaction(db.tables, data);
    if outcome.Err? {
      return Some(outcome.error);
    }
    var t := outcome.value;
    var rebuild := RebuildOnUpdate(data, StoredGroup(db.tables, data).value);
    UpdateOutcome(t0, data, db.nextGroupId);
    Commit(db, cache, t, rebuild);
    error := None;
  }

  /**
   * deleteGroupById: the group's memberships and grants, then its row; the
   * cache is always rebuilt.
   */
  method DeleteGroupById(db: Database, cache: Cache, id: nat)
    requires db.Valid()
    modifies db, cache
    ensures db.Valid() && db.nextGroupId == old(db.nextGroupId)
    ensures db.tables.users == old(db.tables.users) && db.tables.resources == old(db.tables.resources)
    ensures forall m :: m in db.tables.groupUsers <==> m in old(db.tables.groupUsers) && m.groupId != id
    ensures forall g :: g in db.tables.groupResources <==> g in old(db.tables.groupResources) && g.groupId != id
    ensures forall g :: g in db.tables.groups <==> g in old(db.tables.groups) && g.id != id
    ensures Consistent(db, cache)
    ensures forall p :: p in GetUsersPermissions(db.tables) <==> p in GetUsersPermissions(old(db.tables)) && p.groupId != id
  {
    var t := db.tables;
    t := t.(groupUsers := DeleteMembershipsOfGroup(t.groupUsers, id),
            groupResources := DeleteGrantsOfGroup(t.groupResources, id));
    t := t.(groups := DeleteGroupRow(t.groups, id));
    DeleteGroupEffect(db.tables, id);
    assert t == DeleteGroupTables(db.tables, id);
    db.tables := t;
    cache.LoadAuthorizationRoles(db.tables);
  }
}
