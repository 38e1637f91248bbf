/**
 * The group request validators: the store and update schemas as predicates over
 * the submitted record, and the update validator, which adds the rename check.
 */
module GroupValidator {
  import opened Wrappers
  import opened Entities
  import opened GroupTables
  import opened GroupModel
  import opened Requests
  import opened Strings

  /** A submitted permissions object; each boolean may be missing. */
  datatype PermissionsInput = PermissionsInput(write: Option<bool>, update: Option<bool>, del: Option<bool>)

  datatype UserItemInput = UserItemInput(id: Option<nat>, name: Option<string>, email: Option<string>,
                                         operation: Option<string>)

  datatype ResourceItemInput = ResourceItemInput(id: Option<nat>, name: Option<string>,
                                                 permissions: Option<PermissionsInput>, operation: Option<string>)

  /** A group request body as submitted; every field may be missing. */
  datatype GroupRequest = GroupRequest(id: Option<int>, name: Option<string>, blocked: Option<bool>,
                                       description: Option<string>, users: Option<seq<UserItemInput>>,
                                       resources: Option<seq<ResourceItemInput>>)

  const NameMin: nat := 3
  const NameMax: nat := 50
  const DescriptionMax: nat := 255

  /** A required string: present and not empty. */
  predicate RequiredString(s: Option<string>) {
    s.Some? && |s.value| > 0
  }

  predicate DescriptionFits(description: Option<string>) {
    description.None? || UTF16Length(description.value) <= DescriptionMax
  }

  /** All three permission booleans are present. */
  predicate CompletePermissions(p: Option<PermissionsInput>) {
    p.Some? && p.value.write.Some? && p.value.update.Some? && p.value.del.Some?
  }

  predicate IsOperationTag(operation: Option<string>) {
    operation == Some(CreateTag) || operation == Some(UpdateTag) || operation == Some(DeleteTag)
  }

  // ---------------------------------------------------------------------------
  // storeSchema
  // ---------------------------------------------------------------------------

  predicate StoreUserItem(x: UserItemInput) {
    x.id.Some?
  }

  predicate StoreResourceItem(x: ResourceItemInput) {
    x.id.Some? && CompletePermissions(x.permissions)
  }

  predicate StoreSchema(req: GroupRequest) {
    && RequiredString(req.name) && NameMin <= UTF16Length(req.name.value) <= NameMax
    && DescriptionFits(req.description)
    && (req.users.Some? ==> forall i :: 0 <= i < |req.users.value| ==> StoreUserItem(req.users.value[i]))
    && (req.resources.Some? ==> forall i :: 0 <= i < |req.resources.value| ==> StoreResourceItem(req.resources.value[i]))
  }

  /** store: the schema alone decides; a failure answers 400 with the schema's messages. */
  function Store(req: GroupRequest): (v: Verdict)
    ensures v == Next <==> StoreSchema(req)
    ensures v != Next ==> v == Rejected(None)
  {
    if StoreSchema(req) then Next else Rejected(None)
  }

  // ---------------------------------------------------------------------------
  // updateSchema
  // ---------------------------------------------------------------------------

  predicate UpdateUserItem(x: UserItemInput) {
    x.id.Some? && IsOperationTag(x.operation)
  }

  /** `permissions` is required, with all three booleans, exactly when the operation is `c` or `u`. */
  predicate UpdateResourceItem(x: ResourceItemInput) {
    && x.id.Some? && IsOperationTag(x.operation)
    && (x.operation == Some(CreateTag) || x.operation == Some(UpdateTag) ==> CompletePermissions(x.permissions))
  }

  predicate UpdateSchema(req: GroupRequest) {
    && req.id.Some?
    && RequiredString(req.name) && UTF16Length(req.name.value) <= NameMax
    && DescriptionFits(req.description)
    && (req.users.Some? ==> forall i :: 0 <= i < |req.users.value| ==> UpdateUserItem(req.users.value[i]))
    && (req.resources.Some? ==> forall i :: 0 <= i < |req.resources.value| ==> UpdateResourceItem(req.resources.value[i]))
  }

  // ---------------------------------------------------------------------------
  // From a validated request to the record the model receives
  // ---------------------------------------------------------------------------

  /** A missing boolean reads as false; only `d` items may leave them out, and their flags are never used. */
  function FlagsOf(p: Option<PermissionsInput>): (f: Flags)
    ensures CompletePermissions(p) ==>
      f == Flags(p.value.write.value, p.value.update.value, p.value.del.value)
  {
    match p
    case None => Flags(false, false, false)
    case Some(q) => Flags(q.write.GetOr(false), q.update.GetOr(false), q.del.GetOr(false))
  }

  function UserData(x: UserItemInput): GroupUserData
    requires x.id.Some?
  {
    GroupUserData(x.id.value, x.name, x.email, x.operation)
  }

  function ResourceData(x: ResourceItemInput): GroupResourceData
    requires x.id.Some?
  {
    GroupResourceData(x.id.value, x.name, FlagsOf(x.permissions), x.operation)
  }

  /** No group row has a negative id, so a negative id is looked up as a missing one. */
  function GroupIdOf(id: Option<int>): (r: Option<nat>)
    ensures r.Some? <==> id.Some? && id.value >= 0
    ensures r.Some? ==> r.value == id.value
  {
    if id.Some? && id.value >= 0 then Some(id.value) else None
  }

  function ToGroupData(req: GroupRequest): (data: GroupData)
    requires RequiredString(req.name)
    requires req.users.Some? ==> forall i :: 0 <= i < |req.users.value| ==> req.users.value[i].id.Some?
    requires req.resources.Some? ==> forall i :: 0 <= i < |req.resources.value| ==> req.resources.value[i].id.Some?
    ensures data.name == req.name.value && data.blocked == req.blocked && data.description == req.description
    ensures data.id == GroupIdOf(req.id)
    ensures data.users.Some? <==> req.users.Some?
    ensures data.users.Some? ==>
      && |data.users.value| == |req.users.value|
      && forall i :: 0 <= i < |data.users.value| ==> data.users.value[i] == UserData(req.users.value[i])
    ensures data.resources.Some? <==> req.resources.Some?
    ensures data.resources.Some? ==>
      && |data.resources.value| == |req.resources.value|
      && forall i :: 0 <= i < |data.resources.value| ==> data.resources.value[i] == ResourceData(req.resources.value[i])
  {
    var users := if req.users.None? then None
      else Some(seq(|req.users.value|, i requires 0 <= i < |req.users.value| => UserData(req.users.value[i])));
    var resources := if req.resources.None? then None
      else Some(seq(|req.resources.value|, i requires 0 <= i < |req.resources.value| => ResourceData(req.resources.value[i])));
    GroupData(GroupIdOf(req.id), req.name.value, req.blocked, req.description, users, resources)
  }

  // ---------------------------------------------------------------------------
  // update: the route id, the schema, then the rename check
  // ---------------------------------------------------------------------------

  /** The body with `id` overwritten by `parseInt` of the route parameter. */
  function WithRouteId(req: GroupRequest, routeId: string): GroupRequest {
    req.(id := ParseIntText(routeId))
  }

  /**
   * update: a schema failure answers 400 with the schema's messages; a
   * missing group makes `findOneOrFail` throw; a name collision answers 400
   * with the rename check's message.
   */
  function Update(t: Tables, req: GroupRequest, routeId: string): Verdict {
    var body := WithRouteId(req, routeId);
    if !UpdateSchema(body) then Rejected(None)
    else
      match ValidateUpdateOperation(t, ToGroupData(body))
      case Err(_) => Failed
      case Ok((isValid, message)) => if isValid then Next else Rejected(Some(message.GetOr([])))
  }

  /** The outcomes of update, each with the condition that leads to it. */
  lemma UpdateOutcomes(t: Tables, req: GroupRequest, routeId: string)
    ensures var body := WithRouteId(req, routeId);
      && (Update(t, req, routeId) == Rejected(None) <==> !UpdateSchema(body))
      && (Update(t, req, routeId) == Failed <==>
            UpdateSchema(body) && StoredGroup(t, ToGroupData(body)).None?)
      && (Update(t, req, routeId) == Rejected(Some(NameInUseMessage)) <==>
            && UpdateSchema(body) && StoredGroup(t, ToGroupData(body)).Some?
            && body.name.value != StoredGroup(t, ToGroupData(body)).value.name
            && exists i :: 0 <= i < |t.groups| && t.groups[i].name == body.name.value)
      && (Update(t, req, routeId) == Next <==>
            && UpdateSchema(body) && StoredGroup(t, ToGroupData(body)).Some?
            && (body.name.value == StoredGroup(t, ToGroupData(body)).value.name ||
                forall i :: 0 <= i < |t.groups| ==> t.groups[i].name != body.name.value))
  {
    var body := WithRouteId(req, routeId);
    if UpdateSchema(body) {
      var data := ToGroupData(body);
      match StoredGroup(t, data)
      case None =>
      case Some(g) =>
        if data.name != g.name {
          var (inUse, message) := GroupNameExists(t.groups, data.name);
          assert ValidateUpdateOperation(t, data) == if inUse then Ok((false, message)) else Ok((true, None));
        }
    }
  }

  /** An update the validator passes on is one the model can save: the stored row exists and its new name is free. */
  lemma UpdatePassedCanSave(t: Tables, req: GroupRequest, routeId: string)
    requires WellFormed(t)
    requires Update(t, req, routeId) == Next
    ensures var data := ToGroupData(WithRouteId(req, routeId));
      && StoredGroup(t, data).Some?
      && SaveGroup(t, UpdatedRow(StoredGroup(t, data).value, data)).Ok?
  {
    var data := ToGroupData(WithRouteId(req, routeId));
    ValidationPredictsSave(t, data);
  }

  /** A passed update carries only the tags the model knows, and `c`/`u` items carry the submitted booleans. */
  lemma UpdatePassedItems(t: Tables, req: GroupRequest, routeId: string)
    requires Update(t, req, routeId) == Next
    ensures var data := ToGroupData(WithRouteId(req, routeId));
      && (data.users.Some? ==> forall x :: x in data.users.value ==> IsOperationTag(x.operation))
      && (data.resources.Some? ==> forall x :: x in data.resources.value ==> IsOperationTag(x.operation))
      && (data.resources.Some? ==>
            forall i :: 0 <= i < |data.resources.value| && data.resources.value[i].operation != Some(DeleteTag) ==>
            var p := req.resources.value[i].permissions.value;
            data.resources.value[i].permissions == Flags(p.write.value, p.update.value, p.del.value))
  {
    var body := WithRouteId(req, routeId);
    var data := ToGroupData(body);
    if data.users.Some? {
      forall x | x in data.users.value
        ensures IsOperationTag(x.operation)
      {
        var i :| 0 <= i < |data.users.value| && data.users.value[i] == x;
        assert UpdateUserItem(body.users.value[i]);
      }
    }
    if data.resources.Some? {
      forall x | x in data.resources.value
        ensures IsOperationTag(x.operation)
      {
        var i :| 0 <= i < |data.resources.value| && data.resources.value[i] == x;
        assert UpdateResourceItem(body.resources.value[i]);
      }
      forall i | 0 <= i < |data.resources.value| && data.resources.value[i].operation != Some(DeleteTag)
        ensures var p := req.resources.value[i].permissions.value;
          data.resources.value[i].permissions == Flags(p.write.value, p.update.value, p.del.value)
      {
        assert UpdateResourceItem(body.resources.value[i]);
      }
    }
  }

  /** The update schema sets no lower bound on the name: a one-letter rename passes it, while store needs three letters. */
  lemma UpdateNameHasNoMinimum()
    ensures UpdateSchema(GroupRequest(Some(1), Some("a"), None, None, None, None))
    ensures !StoreSchema(GroupRequest(None, Some("a"), None, None, None, None))
  {
  }

  /**
   * The name bounds count UTF-16 code units: a name of supplementary-plane
   * chars passes store only with 2 to 25 of them, and 26 are too many.
   */
  lemma SupplementaryNameBounds(name: string)
    requires |name| > 0 && forall i :: 0 <= i < |name| ==> name[i] as int >= 0x1_0000
    ensures StoreSchema(GroupRequest(None, Some(name), None, None, None, None)) <==> 2 <= |name| <= 25
    ensures UpdateSchema(GroupRequest(Some(1), Some(name), None, None, None, None)) <==> |name| <= 25
  {
    UTF16LengthSupplementary(name);
  }

  /** 26 copies of U+1F600 are 52 code units, over the limit of 50. */
  lemma LongEmojiNameRejected()
    ensures var name := seq(26, _ => '\U{1F600}');
      !StoreSchema(GroupRequest(None, Some(name), None, None, None, None)) &&
      !UpdateSchema(GroupRequest(Some(1), Some(name), None, None, None, None))
  {
    var name := seq(26, _ => '\U{1F600}');
    SupplementaryNameBounds(name);
  }

  /** A store body whose items carry `c` tags also passes the update schema once an id is supplied. */
  lemma StoreNameFitsUpdate(req: GroupRequest, id: int)
    requires StoreSchema(req)
    requires req.users.Some? ==> forall i :: 0 <= i < |req.users.value| ==> req.users.value[i].operation == Some(CreateTag)
    requires req.resources.Some? ==>
      forall i :: 0 <= i < |req.resources.value| ==> req.resources.value[i].operation == Some(CreateTag)
    ensures UpdateSchema(req.(id := Some(id)))
  {
    var body := req.(id := Some(id));
    if body.users.Some? {
      assert forall i :: 0 <= i < |body.users.value| ==> StoreUserItem(body.users.value[i]);
    }
    if body.resources.Some? {
      assert forall i :: 0 <= i < |body.resources.value| ==> StoreResourceItem(body.resources.value[i]);
    }
  }

  /** The grants a stored body creates carry exactly the submitted booleans, `del` landing in the `delete` column. */
  lemma StoreGrantsCopySubmitted(req: GroupRequest, groupId: nat)
    requires StoreSchema(req) && req.resources.Some?
    ensures var rows := CreatedGrants(groupId, ToGroupData(req));
      && |rows| == |req.resources.value|
      && forall i :: 0 <= i < |rows| ==>
           var p := req.resources.value[i].permissions.value;
           && rows[i].groupId == groupId && rows[i].resourceId == req.resources.value[i].id.value
           && rows[i].write == p.write.value && rows[i].update == p.update.value && rows[i].delete == p.del.value
  {
    var data := ToGroupData(req);
    var rows := CreatedGrants(groupId, data);
    forall i | 0 <= i < |rows|
      ensures var p := req.resources.value[i].permissions.value;
        && rows[i].groupId == groupId && rows[i].resourceId == req.resources.value[i].id.value
        && rows[i].write == p.write.value && rows[i].update == p.update.value && rows[i].delete == p.del.value
    {
      assert StoreResourceItem(req.resources.value[i]);
      assert rows[i] == GrantOf(groupId, data.resources.value[i]);
    }
  }
}
