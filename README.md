# painkiller permission engine, modelled in Dafny

painkiller is an administration backend (Express, TypeORM, Redis) with a React
front end. Access is role based. Users belong to groups. Groups hold grants with
`write`/`update`/`delete` bits on resources, and a resource is a URL path such as
`/users`. This project models the engine that turns those tables into
access decisions, and proves properties of the model:

- the permission join over the five tables (users, groups, resources,
  groups_users, groups_resources) with the keys and unique constraints of
  their migrations;
- the authorisation cache, a Redis hash `auth` mapping
  `"{idUser}:{groupId}:{resource}"` to the three flags. The model covers its rebuild,
  its single-resource lookup (HSCAN `MATCH {idUser}:*{resource}`, flags ORed) and its
  per-user listing (HSCAN `MATCH {idUser}:*:*`, merged per resource);
- the request authoriser: path normalisation and the verb-to-flag switch;
- the login: the invalid-attempt counter, lockout after more than four failures, and
  the permissions attached to the signed user;
- the group business model: splitting the submitted items by operation tag `c`/`u`/`d`,
  the rename check, the create, update and delete transactions, and the rebuild
  trigger that follows each one;
- the request validators for groups and users, and the pagination middleware;
- the front end's use of the permissions: the authentication context, the button bar,
  the route and menu filtering of the layout, and the group edit form and screen.

Tables are values (`Entities.Tables`, sequences of rows). The database and the
cache are classes whose methods update them in place (`Entities.Database.tables`,
`AuthorizationCache.Cache.auth`). Every SQL statement is a function on tables. A
statement that would break a constraint returns `Err(ConstraintViolation)`, and a
transaction is all-or-nothing. The front-end components that hold state are classes too
(`AuthContext.Context`, `ButtonBar.Bar`, `DefaultLayout.Layout` and
`DefaultLayout.Navigation`, `GroupMainForm.FormState`, `GroupEdit.EditScreen`,
`Pagination.Request`). Library calls the model cannot see are parameters:
bcrypt's `compare`, `jwt.sign`, `new Date()`, Yup's e-mail test and `toLocaleLowerCase`.

Where the intended design of the system and its code disagree, the model follows the
code. For each of the three defects reported under "Findings" it holds both the operation
as written and a corrected one: `GroupModel.UpdateGroupAsWritten` (with
`UpdateTransactionAsWritten`) beside the corrected `GroupModel.UpdateGroup` (with
`UpdateTransaction`), and `DefaultLayout.Layout.ComponentDidMountAsWritten` beside the
corrected `DefaultLayout.Layout.ComponentDidMount`. In each such pair the member without the
`AsWritten` suffix is the corrected one. Other points where the code is followed:

- A failed login is either `UserDoesNotExist` or `InvalidPassword`, as the two
  thrown errors are (SessionModel.ts:36-45). It is not a single invalid-credentials
  error.
- In `UpdateGroupAsWritten` a user item tagged `d` removes memberships by user id only,
  in every group (GroupModel.ts:298-304). The cache is rebuilt exactly when `users` or
  `resources` is present, even when empty (GroupModel.ts:362-365). The corrected
  `UpdateGroup` removes the user from the updated group only, and also rebuilds when
  `blocked` changes.
- An update without a description keeps the stored one, because `save` does not write
  an undefined property (GroupModel.ts:285). A create without one fails, because the
  `description` column is NOT NULL without a default (1570568902750-CreateGroups.ts:21-26).
- The render sorts the form's own users list in place (GroupMainForm.tsx:272), so the
  users are submitted in name order (`GroupMainForm.FormState.SortUsers`).
- Yup's `min` and `max` on strings compare `value.length`, which counts UTF-16 code
  units (`Strings.UTF16Length`): a supplementary-plane char such as U+1F600 counts twice.
- The pagination limit is 20 only when exactly 20 is asked for; anything else
  gives 10 (Pagination.ts:16).
- The server looks up a path with its last segment removed (Authorization.ts:20-21).
  The browser keeps only the first segment (AuthContext.tsx:94-98). The two agree on
  paths with at most one inner `/` and differ on deeper ones
  (`AuthContext.ClientDiffersFromServerOnDeepPaths`).

## Model

| member | source | states |
|---|---|---|
| Entities.FindUser | backend/src/app/repository/UserRepository.ts:112-119 | a user row found by id holds that id; none is found only when no row has it |
| Entities.FindGroup | backend/src/app/models/security/GroupModel.ts:280-282 | a group row found by id holds that id; none is found only when no row has it |
| Entities.FindResource | backend/src/app/models/security/GroupModel.ts:109-122 | a resource row found by id holds that id; none is found only when no row has it |
| Entities.FindUserUnique | backend/src/database/migration/1570567329811-CreateUsers.ts:12-13 | with unique user ids, looking up a row's id finds that very row |
| Entities.FindGroupUnique | backend/src/database/migration/1570568902750-CreateGroups.ts:12-13 | with unique group ids, looking up a row's id finds that very row |
| Entities.FindResourceUnique | backend/src/database/migration/1571417874608-CreateResources.ts:37 | with unique resource keys, looking up a row's id finds that very row |
| Entities.Database.constructor | backend/src/database/migration/1571421452119-CreateGroupsResources.ts:58-79 | a database starts from tables meeting every key, unique and foreign-key constraint, with an id generator above every group id |
| UserRepository.GetUserLoginData | backend/src/app/repository/UserRepository.ts:18-33 | a row is returned only when it has the e-mail and is not blocked; nothing is returned iff every row has another e-mail or is blocked |
| UserRepository.DoesUserEmailExists | backend/src/app/repository/UserRepository.ts:68-76 | true iff some user other than `userId` has the e-mail |
| UserRepository.DefaultUserIdChecksEveryUser | backend/src/app/repository/UserRepository.ts:68 | with generated ids the default `userId = 0` excludes nobody: true iff any user has the e-mail |
| UserRepository.IsUserExist | backend/src/app/repository/UserRepository.ts:112-119 | true iff a row has the id |
| UserRepository.JoinGrants | backend/src/app/repository/UserRepository.ts:51-55 | the rows of one membership are exactly the joins of that membership with some grant |
| UserRepository.JoinMemberships | backend/src/app/repository/UserRepository.ts:51-56 | the rows are exactly the joins of some membership with some grant |
| UserRepository.Distinct | backend/src/app/repository/UserRepository.ts:50 | `distinct` keeps every row, and each row only once |
| UserRepository.JoinRowSound | backend/src/app/repository/UserRepository.ts:42-56 | a joined row comes from a user, group and resource that satisfy the join and `where` conditions, with the selected columns |
| UserRepository.PermissionsSound | backend/src/app/repository/UserRepository.ts:40-60 | every fetched tuple has a join path user, membership, group, grant, resource through an unblocked user and an unblocked group |
| UserRepository.PermissionsComplete | backend/src/app/repository/UserRepository.ts:40-60 | every such join path yields a fetched tuple |
| UserRepository.PermissionsDistinct | backend/src/app/repository/UserRepository.ts:50 | no tuple is fetched twice |
| UserRepository.PermissionFlagsFromGrant | backend/src/app/repository/UserRepository.ts:46-48 | a tuple's `write`/`update` come from a grant of its group, and its `del` from that grant's `delete` column |
| UserRepository.RowFromUnblocked | backend/src/app/repository/UserRepository.ts:56 | each tuple's user and group exist and are unblocked |
| UserRepository.BlockedUserExcluded | backend/src/app/repository/UserRepository.ts:56 | a blocked user contributes no tuple |
| UserRepository.BlockedGroupExcluded | backend/src/app/repository/UserRepository.ts:56 | a blocked group contributes no tuple |
| UserRepository.SameReachableSameRows | backend/src/app/repository/UserRepository.ts:40-60 | two databases with the same join paths fetch the same tuples |
| Strings.NatToString | backend/src/services/AuthorizationCache.ts:29 | the decimal rendering is non-empty digits, with no `:` and no `/` |
| Strings.NatToStringRoundTrip | backend/src/services/AuthorizationCache.ts:29 | reading the decimal rendering back gives the number |
| Strings.NatToStringInjective | backend/src/services/AuthorizationCache.ts:29 | different numbers render differently |
| Strings.DigitPrefixSplit | backend/src/services/AuthorizationCache.ts:29 | two digit strings, each followed by `:`, that begin the same string are equal, and so are the rests |
| Strings.IndexOfFrom | backend/src/services/AuthorizationCache.ts:101 | the first index at or after `from` holding the character, or -1 when there is none |
| Strings.IndexOf | backend/src/services/AuthorizationCache.ts:101 | the first index holding the character, or -1 when there is none |
| Strings.LastIndexOf | backend/src/app/middlewares/Authorization.ts:20-21 | the last index holding the character, or -1 when there is none |
| Strings.Substring | backend/src/services/AuthorizationCache.ts:101 | `substring(start)` is the suffix from `start`, and the whole string for a negative start |
| Strings.LexLessAsymmetric | frontend/src/views/Groups/Edit/GroupMainForm.tsx:94-104 | string `<` never holds both ways |
| Strings.LexLessTrichotomous | frontend/src/views/Groups/Edit/GroupMainForm.tsx:94-104 | two strings neither below the other are equal |
| Strings.LexLessIrreflexive | frontend/src/views/Groups/Edit/GroupMainForm.tsx:94-104 | no string is below itself |
| Strings.LexLessTransitive | frontend/src/views/Groups/Edit/GroupMainForm.tsx:94-104 | string `<` is transitive |
| Strings.CodeUnits | backend/src/app/middlewares/validators/security/GroupValidator.ts:22-25 | a char is two code units iff it lies above U+FFFF, else one |
| Strings.UTF16Length | backend/src/app/middlewares/validators/security/GroupValidator.ts:22-25 | `length` is between the number of chars and twice it, and 0 only for the empty string |
| Strings.UTF16LengthConcat | backend/src/app/middlewares/validators/security/GroupValidator.ts:22-25 | code units add up over concatenation |
| Strings.UTF16LengthBasicPlane | backend/src/app/middlewares/validators/security/GroupValidator.ts:22-25 | a string of chars up to U+FFFF has as many code units as chars |
| Strings.UTF16LengthSupplementary | backend/src/app/middlewares/validators/security/GroupValidator.ts:22-25 | a string of chars above U+FFFF has two code units per char |
| Seqs.Filter | frontend/src/views/Groups/Edit/index.tsx:116 | `filter` keeps exactly the elements passing the test; the result is no longer than the input |
| Seqs.FilterConcat | frontend/src/views/Groups/Edit/index.tsx:116 | filtering splits over concatenation, so the kept elements keep their order |
| Seqs.FilterTwice | frontend/src/containers/DefaultLayout/DefaultLayout.tsx:118-120 | two filters in a row keep what both tests keep |
| Seqs.FilterAll | frontend/src/views/Groups/Edit/index.tsx:116 | a test that every element passes changes nothing |
| Seqs.FilterSameTest | frontend/src/containers/DefaultLayout/DefaultLayout.tsx:118-120 | two tests that agree everywhere keep the same elements |
| AuthorizationCache.KeyInjective | backend/src/services/AuthorizationCache.ts:29 | a key determines its tuple's user, group and resource |
| AuthorizationCache.PrefixesDetermineUser | backend/src/services/AuthorizationCache.ts:55 | a field starting with both `{a}:` and `{b}:` has `a == b` |
| AuthorizationCache.PatternIsolatesUser | backend/src/services/AuthorizationCache.ts:55 | a match pattern for one user never matches another user's key (user 1 never sees user 11) |
| AuthorizationCache.KeyMatchesOwnResource | backend/src/services/AuthorizationCache.ts:55 | a tuple's key matches the resource pattern of its own user and resource |
| AuthorizationCache.KeyMatchesOwnUser | backend/src/services/AuthorizationCache.ts:91 | a tuple's key matches the user pattern of its own user |
| AuthorizationCache.ResourceOfKey | backend/src/services/AuthorizationCache.ts:101 | reading the resource back from the first `/` of a key gives the tuple's resource, for path resources |
| AuthorizationCache.HashOfKeys | backend/src/services/AuthorizationCache.ts:25-35 | after the `hset`s the hash's fields are exactly the tuples' keys |
| AuthorizationCache.HashOfValues | backend/src/services/AuthorizationCache.ts:25-35 | with distinct keys each tuple's flags are stored under its key |
| AuthorizationCache.Provenance | backend/src/app/repository/UserRepository.ts:42-56 | a fetched tuple comes from a grant of its group on a resource of its name, with that grant's flags |
| AuthorizationCache.ResourceByName | backend/src/database/migration/1571417874608-CreateResources.ts:37 | two resources with the same name are the same row |
| AuthorizationCache.GrantByKey | backend/src/database/migration/1571421452119-CreateGroupsResources.ts:74-79 | two grants of the same group and resource are the same row |
| AuthorizationCache.SameKeySameTuple | backend/src/services/AuthorizationCache.ts:29 | in valid tables two fetched tuples with one key are one tuple |
| AuthorizationCache.FetchedKeysUnique | backend/src/services/AuthorizationCache.ts:25-35 | tuples fetched from valid tables have distinct keys, so no `hset` overwrites another |
| AuthorizationCache.ProjectionExact | backend/src/services/AuthorizationCache.ts:17-38 | after a rebuild the hash holds exactly the fetched tuples' keys, each with its tuple's flags |
| AuthorizationCache.ProjectionDeterminedByRows | backend/src/services/AuthorizationCache.ts:17-38 | valid databases that fetch the same tuples rebuild the same hash |
| AuthorizationCache.SameReachableSameProjection | backend/src/services/AuthorizationCache.ts:17-38 | valid databases with the same join paths rebuild the same hash |
| AuthorizationCache.SomeFlags | backend/src/services/AuthorizationCache.ts:65-70 | each flag is true iff some entry of the reply has it |
| AuthorizationCache.RolesFromReply | backend/src/services/AuthorizationCache.ts:56-70 | null iff the reply is empty; otherwise a permission on the asked resource |
| AuthorizationCache.RolesFromScan | backend/src/services/AuthorizationCache.ts:46-73 | every complete scan, in any order, gives the answer the hash determines: null iff no field matches, else each flag ORed over the matches |
| AuthorizationCache.EntriesFor | backend/src/services/AuthorizationCache.ts:101-110 | the reply entries for a resource are exactly those whose key reads back as it |
| AuthorizationCache.EntriesForEmpty | backend/src/services/AuthorizationCache.ts:101-110 | no entries for a resource iff no key reads back as it |
| AuthorizationCache.SomeFlagsSnoc | backend/src/services/AuthorizationCache.ts:113-118 | one more entry ORs its flags into the merged ones |
| AuthorizationCache.MergeByResource | backend/src/services/AuthorizationCache.ts:97-124 | the Map has an entry exactly for each resource some key reads back as |
| AuthorizationCache.MergeStepOther | backend/src/services/AuthorizationCache.ts:110-122 | a merge step leaves the other resources' values alone |
| AuthorizationCache.MergeStepHit | backend/src/services/AuthorizationCache.ts:110-118 | a step into a resource already present ORs the new flags in |
| AuthorizationCache.MergeStepNew | backend/src/services/AuthorizationCache.ts:119-122 | a step into a new resource stores the entry's flags |
| AuthorizationCache.MergeByResourceValues | backend/src/services/AuthorizationCache.ts:97-124 | each merged value is the OR of the flags of the entries for its resource |
| AuthorizationCache.ResourceOrder | backend/src/services/AuthorizationCache.ts:119-122 | the Map's insertion order lists exactly the resources of the reply |
| AuthorizationCache.ResourceOrderDistinct | backend/src/services/AuthorizationCache.ts:119-122 | each resource has one place in the insertion order |
| AuthorizationCache.MergeSnoc | backend/src/services/AuthorizationCache.ts:110-122 | one entry more sets or ORs that entry's resource in the Map |
| AuthorizationCache.ResourceOrderSnoc | backend/src/services/AuthorizationCache.ts:119-122 | one entry more appends its resource to the order only if it is new |
| AuthorizationCache.MergeOrderAgree | backend/src/services/AuthorizationCache.ts:97-129 | a resource is in the Map iff it has a place in the order |
| AuthorizationCache.MergePrefixStep | backend/src/services/AuthorizationCache.ts:97-124 | the Map and the order after one more entry of a prefix of the reply |
| AuthorizationCache.MergeOrderIndependent | backend/src/services/AuthorizationCache.ts:97-124 | the merged Map depends only on the set of entries, not on HSCAN's order nor on repeats |
| AuthorizationCache.SameEntriesSameFlags | backend/src/services/AuthorizationCache.ts:110-122 | replies with the same entries merge the same flags for every resource |
| AuthorizationCache.TruePrevails | backend/src/services/AuthorizationCache.ts:77-88 | the documented example: three groups granting one flag each on `/users` merge to all three flags |
| AuthorizationCache.MergeFromScan | backend/src/services/AuthorizationCache.ts:90-132 | any complete scan of the user pattern lists exactly the user's resources, each with its flags ORed over the user's keys for it |
| AuthorizationCache.RebuildRoundTrip | backend/src/services/AuthorizationCache.ts:17-73 | after a rebuild every fetched tuple is found again by its user and resource, with each flag at least its own |
| AuthorizationCache.ColonFreeSuffix | backend/src/services/AuthorizationCache.ts:55 | a `:`-free suffix of `{a}:{b}` is a suffix of `b` |
| AuthorizationCache.KeyMatchesResource | backend/src/services/AuthorizationCache.ts:55 | for a `:`-free path, a key matches the resource pattern iff it is the user's and its resource ends with the path |
| AuthorizationCache.LookupAgainstTables | backend/src/services/AuthorizationCache.ts:46-73 | a lookup after a rebuild is non-null iff the user has a tuple whose resource ends with the path, and each flag is the OR over those tuples |
| AuthorizationCache.RowsMatchResource | backend/src/services/AuthorizationCache.ts:55 | the same match condition holds for every tuple of a list |
| AuthorizationCache.LookupFromRows | backend/src/services/AuthorizationCache.ts:46-73 | the lookup over a hash holding exactly the keys of some tuples is stated on those tuples, both ways |
| AuthorizationCache.ByResourcesRoundTrip | backend/src/services/AuthorizationCache.ts:17-132 | after a rebuild every fetched tuple with a path resource is listed for its user, with each flag at least its own |
| AuthorizationCache.Cache.constructor | backend/src/services/AuthorizationCache.ts:24 | the hash starts empty |
| AuthorizationCache.Cache.HScan | backend/src/services/AuthorizationCache.ts:55 | the reply holds every matching field exactly once, with its stored value |
| AuthorizationCache.Cache.LoadAuthorizationRoles | backend/src/services/AuthorizationCache.ts:17-38 | after `del` and the `hset`s the hash is the projection of the tables |
| AuthorizationCache.Cache.GetUserRolesFromResource | backend/src/services/AuthorizationCache.ts:46-73 | the answer is null iff no field of the hash matches `{idUser}:*{resource}`, else each flag ORed over the matches |
| AuthorizationCache.Cache.GetUserRolesByResources | backend/src/services/AuthorizationCache.ts:90-132 | one entry per resource read back from the user's keys, no resource twice, every such resource listed, flags ORed |
| AuthorizationCache.GroupByResource | backend/src/services/AuthorizationCache.ts:97-129 | the listing is the merged Map's values, in first-occurrence order of their resources |
| AuthorizationCache.MergeEntries | backend/src/services/AuthorizationCache.ts:97-124 | the first loop builds the merged Map and the insertion order of the reply |
| AuthorizationCache.MergeEntry | backend/src/services/AuthorizationCache.ts:101-122 | one entry sets a new resource and remembers it, or ORs into a known one |
| AuthorizationCache.ListInOrder | backend/src/services/AuthorizationCache.ts:126-129 | the Map's values, one per remembered resource, in order |
| AuthorizationCache.ByResourcesSpec | backend/src/services/AuthorizationCache.ts:90-132 | a listing built from a complete scan meets the by-resources contract |
| Authorization.NormalizePath | backend/src/app/middlewares/Authorization.ts:20-21 | with an inner `/` the path is cut at its last `/`, so the result is a prefix and the cut-off part has no `/`; otherwise the path is kept |
| Authorization.NormalizeStripsOneSegment | backend/src/app/middlewares/Authorization.ts:20-21 | the normalised path, `/` and the last segment make up the request path |
| Authorization.NormalizeExamples | backend/src/app/middlewares/Authorization.ts:20-21 | `/users/4` and `/users` look up `/users`; `/users/4/edit` looks up `/users/4` |
| Authorization.Decide | backend/src/app/middlewares/Authorization.ts:24-53 | no permission denies; GET allows; POST, PUT/PATCH and DELETE allow iff `write`, `update` and `del`; any other verb denies |
| Authorization.Authorize | backend/src/app/middlewares/Authorization.ts:12-57 | `next` is called iff the cached permission of the normalised path allows the verb; otherwise 403 |
| Authorization.GetAfterRebuild | backend/src/app/middlewares/Authorization.ts:12-57 | after a rebuild a GET passes iff the user has a tuple whose resource ends with the normalised path |
| AuthContext.BaseResource | frontend/src/assets/store/auth/AuthContext.tsx:94-98 | the path up to its first inner `/`: a prefix that is non-empty for a non-empty path and followed by `/` when shorter |
| AuthContext.BaseResourceExamples | frontend/src/assets/store/auth/AuthContext.tsx:94-98 | `/users/5`, `/users/5/edit` and `/users` all look up `/users` |
| AuthContext.ClientAgreesWithServerOnShortPaths | frontend/src/assets/store/auth/AuthContext.tsx:94-98 | with at most one inner `/` the browser and the server look up the same resource |
| AuthContext.ClientDiffersFromServerOnDeepPaths | frontend/src/assets/store/auth/AuthContext.tsx:94-98 | on `/users/4/edit` the browser looks up `/users` and the server `/users/4` |
| AuthContext.FindPermission | frontend/src/assets/store/auth/AuthContext.tsx:100-108 | the first permission on exactly that resource; none iff no permission is on it |
| AuthContext.LookupPermissions | frontend/src/assets/store/auth/AuthContext.tsx:91-113 | null without a signed-in user; a found permission is the user's and is on the base resource; null iff none of the user's is |
| AuthContext.LookupUnique | frontend/src/assets/store/auth/AuthContext.tsx:100-108 | with one entry per resource, as at login, the entry on the base resource is the one found |
| AuthContext.Context.constructor | frontend/src/assets/store/auth/AuthContext.tsx:58-61 | the context starts from what the session held |
| AuthContext.Context.Signup | frontend/src/assets/store/auth/AuthContext.tsx:71-76 | after sign-in the user data is held and the user is authenticated |
| AuthContext.Context.Logout | frontend/src/assets/store/auth/AuthContext.tsx:78-88 | after sign-out nothing is held and the user is not authenticated |
| AuthContext.Context.GetResourcePermissions | frontend/src/assets/store/auth/AuthContext.tsx:91-113 | the lookup on the held user data; null when not authenticated |
| SessionModel.InvalidAttempt | backend/src/app/models/security/SessionModel.ts:71-84 | the counter goes from null to 1 or up by one; `blocked` iff the counter exceeds 4; the attempt time is now; no other column changes |
| SessionModel.ClearedAttempts | backend/src/app/models/security/SessionModel.ts:90-97 | the counter and the attempt time become null; no other column changes |
| SessionModel.UpdateWhereId | backend/src/app/models/security/SessionModel.ts:78-83 | `update ... where id` changes exactly the rows with that id |
| SessionModel.FailuresFromNull | backend/src/app/models/security/SessionModel.ts:74-75 | from a null counter, `n` failures set it to `n` and block iff `n > 4` |
| SessionModel.LockoutBoundary | backend/src/app/models/security/SessionModel.ts:74-75 | four failures leave the user unblocked, the fifth blocks them |
| SessionModel.LoginColumnsKeepWellFormed | backend/src/app/models/security/SessionModel.ts:78-96 | rewriting the login columns keeps every key and constraint |
| SessionModel.SignUp | backend/src/app/models/security/SessionModel.ts:33-65 | unknown or blocked e-mail fails and changes nothing; a wrong password fails and counts an attempt; success returns the row, its token and the user's cached permissions, and clears a non-zero counter; a blocked row stays blocked |
| SessionModel.ComputeInvalidLoginAttempt | backend/src/app/models/security/SessionModel.ts:71-84 | the user's row gets the invalid-attempt update, the rest of the database is unchanged |
| SessionModel.ClearPastInvalidAttempts | backend/src/app/models/security/SessionModel.ts:90-97 | the user's row gets its counter and attempt time cleared, the rest is unchanged |
| GroupTables.InsertMemberships | backend/src/database/migration/1571414172482-CreateGroupsUsers.ts:24-45 | the insert succeeds iff every row's user and group exist and the pairs stay unique; it then appends the rows and keeps the tables valid |
| GroupTables.InsertGrants | backend/src/database/migration/1571421452119-CreateGroupsResources.ts:58-79 | the insert succeeds iff every row's group and resource exist and the pairs stay unique; it then appends the rows and keeps the tables valid |
| GroupTables.DeleteMembershipsOfUsers | backend/src/app/models/security/GroupModel.ts:298-304 | removes exactly the memberships of the listed users, in any group |
| GroupTables.DeleteMembershipsFromGroup | backend/src/app/models/security/GroupModel.ts:298-304 | removes exactly this group's memberships of the listed users |
| GroupTables.DeleteMembershipsOfGroup | backend/src/app/models/security/GroupModel.ts:441-446 | removes exactly the memberships of the group |
| GroupTables.DeleteGrantsFromGroup | backend/src/app/models/security/GroupModel.ts:343-353 | removes exactly this group's grants of the listed resources |
| GroupTables.DeleteGrantsOfGroup | backend/src/app/models/security/GroupModel.ts:448-453 | removes exactly the grants of the group |
| GroupTables.SetGrantFlags | backend/src/app/models/security/GroupModel.ts:325-341 | the grant of that group and resource gets the new flags; every other row and every key stays |
| GroupTables.DeleteGroupRow | backend/src/app/models/security/GroupModel.ts:457-462 | removes exactly the row with the id |
| GroupTables.SaveGroup | backend/src/app/models/security/GroupModel.ts:355 | saving succeeds iff no other group has the name, and then replaces only the row with the id |
| GroupTables.InsertGroup | backend/src/app/models/security/GroupModel.ts:211 | inserting succeeds iff the row has a description (the NOT NULL column) and no group has the name, and then appends the row |
| GroupTables.DeletesAgreeWithinGroup | backend/src/app/models/security/GroupModel.ts:298-304 | the delete by user id and the delete limited to the group leave the same rows when the listed users belong to that group only |
| GroupTables.FindGroupSameIds | backend/src/app/models/security/GroupModel.ts:355 | group lists with the same ids find the same ids |
| GroupTables.FindGroupAfterDelete | backend/src/app/models/security/GroupModel.ts:457-462 | deleting one group leaves every other id found as before |
| GroupTables.SaveGroupKeepsWellFormed | backend/src/app/models/security/GroupModel.ts:355 | saving an existing group under a free name keeps every constraint |
| GroupTables.InsertGroupKeepsWellFormed | backend/src/app/models/security/GroupModel.ts:211 | inserting a group with a fresh positive id under a free name keeps every constraint |
| GroupTables.SetGrantFlagsKeepsWellFormed | backend/src/app/models/security/GroupModel.ts:325-341 | changing grant flags keeps every constraint |
| GroupTables.DeleteAssociationsKeepWellFormed | backend/src/app/models/security/GroupModel.ts:298-304 | deleting association rows keeps every constraint |
| GroupTables.DeleteGroupKeepsWellFormed | backend/src/app/models/security/GroupModel.ts:457-462 | deleting a group that no association references keeps every constraint |
| GroupModel.ExtractUserOperations | backend/src/app/models/security/GroupModel.ts:411-431 | the new memberships are exactly those of `c` items, the ids to remove exactly those of `d` items |
| GroupModel.UserItemWithoutEffect | backend/src/app/models/security/GroupModel.ts:411-431 | an item tagged `u` or untagged changes neither list |
| GroupModel.UserItemAppended | backend/src/app/models/security/GroupModel.ts:411-431 | each item appends to the list its tag selects, so each list keeps the submitted order |
| GroupModel.ExtractResourceOperations | backend/src/app/models/security/GroupModel.ts:376-401 | new grants are exactly the `c` items, updates the `u` items, removals the ids of `d` items other than 0 |
| GroupModel.ResourceItemAppended | backend/src/app/models/security/GroupModel.ts:376-401 | each item appends to the list its tag selects |
| GroupModel.MemberItems | backend/src/app/models/security/GroupModel.ts:99-107 | the user items are exactly the group's members, with their user columns |
| GroupModel.GrantItems | backend/src/app/models/security/GroupModel.ts:109-122 | the resource items are exactly the group's grants, with their resource's id and name |
| GroupModel.GroupDataBuilder | backend/src/app/models/security/GroupModel.ts:97-134 | the response carries the group's id, name, blocked and description, and both lists |
| GroupModel.BuilderListsMembers | backend/src/app/models/security/GroupModel.ts:99-107 | a user is listed iff it is a member of the group |
| GroupModel.BuilderListsGrants | backend/src/app/models/security/GroupModel.ts:109-122 | every grant of the group is listed and every listed item is one, `del` read from `delete` |
| GroupModel.CountGroupsNamed | backend/src/app/models/security/GroupModel.ts:191-197 | the count is non-zero iff some group has the name |
| GroupModel.GroupNameExists | backend/src/app/models/security/GroupModel.ts:191-197 | true iff some group has the name, and then with the name-in-use message |
| GroupModel.StoredGroup | backend/src/app/models/security/GroupModel.ts:141-143 | a found row is in the table with the requested id; none only when no row has it |
| GroupModel.ValidateUpdateOperation | backend/src/app/models/security/GroupModel.ts:140-181 | fails with not-found iff the group does not exist; rejects with a message iff the name changes to one some group has |
| GroupModel.UpdatedRow | backend/src/app/models/security/GroupModel.ts:283-285 | the stored id with the submitted name; the submitted description, or the stored one when none is sent; `blocked` iff submitted true |
| GroupModel.ValidationPredictsSave | backend/src/app/models/security/GroupModel.ts:140-181 | on valid tables the rename check accepts exactly the updates the unique name constraint lets be saved |
| GroupModel.RemoveUsersStep | backend/src/app/models/security/GroupModel.ts:298-304 | the corrected removal drops exactly this group's memberships of the listed users and keeps the tables valid |
| GroupModel.RemoveUsersStepAsWritten | backend/src/app/models/security/GroupModel.ts:298-304 | the removal as written drops every membership of the listed users, in every group, and keeps every constraint |
| GroupModel.RemovalsAgreeWithinGroup | backend/src/app/models/security/GroupModel.ts:298-304 | both removals give the same tables when none of the listed users is in another group |
| GroupModel.AddUsersStep | backend/src/app/models/security/GroupModel.ts:307-314 | on success the memberships are appended and the tables stay valid; failure is a constraint violation |
| GroupModel.AddGrantsStep | backend/src/app/models/security/GroupModel.ts:316-323 | on success the grants are appended and the tables stay valid; failure is a constraint violation |
| GroupModel.LastUpdateFor | backend/src/app/models/security/GroupModel.ts:325-341 | the flags of the last `u` item naming the resource; none iff no item names it |
| GroupModel.ApplyUpdates | backend/src/app/models/security/GroupModel.ts:325-341 | a grant of the group gets the flags of the last `u` item for its resource; other rows and all keys stay |
| GroupModel.UpdateGrantsStep | backend/src/app/models/security/GroupModel.ts:325-341 | the updates touch only grants and keep the tables valid |
| GroupModel.RemoveGrantsStep | backend/src/app/models/security/GroupModel.ts:343-353 | drops exactly this group's grants of the listed resources and keeps the tables valid |
| GroupModel.FinishUpdateKeepsWellFormed | backend/src/app/models/security/GroupModel.ts:307-355 | the statements after the user removal keep every constraint and every group id |
| GroupModel.UpdateAsWrittenAgreesWithinGroup | backend/src/app/models/security/GroupModel.ts:278-366 | the update as written equals the corrected one when none of the users tagged `d` is in another group, in particular when no users are sent |
| GroupModel.UpdateAsWrittenKeepsWellFormed | backend/src/app/models/security/GroupModel.ts:278-366 | a successful update as written keeps every constraint and every group id |
| GroupModel.UpdateKeepsWellFormed | backend/src/app/models/security/GroupModel.ts:278-366 | a successful corrected update keeps every constraint and every group id |
| GroupModel.GrantStepsStayInGroup | backend/src/app/models/security/GroupModel.ts:316-353 | the grant statements add or change only rows of the group |
| GroupModel.GrantStepsKeepOtherGroups | backend/src/app/models/security/GroupModel.ts:316-353 | the grant statements keep every grant of other groups |
| GroupModel.FinishUpdateRows | backend/src/app/models/security/GroupModel.ts:307-355 | the statements after the removal append the memberships and leave other groups' grants alone |
| GroupModel.UpdateLeavesOtherGroups | backend/src/app/models/security/GroupModel.ts:278-366 | the corrected update keeps every membership and grant of other groups, and adds none |
| GroupModel.RemovalLeaksToOtherGroups | backend/src/app/models/security/GroupModel.ts:298-304 | as written, removing user 7 from group 1 also removes user 7 from group 2 |
| GroupModel.UnknownGroupUnreferenced | backend/src/database/migration/1571414172482-CreateGroupsUsers.ts:24-38 | no membership or grant references a group id no row has |
| GroupModel.SameIdAndBlockedSameReachable | backend/src/app/models/security/GroupModel.ts:355 | replacing a group row by one with the same id and `blocked` keeps every join path |
| GroupModel.NoRebuildKeepsProjection | backend/src/app/models/security/GroupModel.ts:362-365 | when the corrected trigger does not fire, a rebuild would store the same hash as before |
| GroupModel.BlockOnlyUpdateResult | backend/src/app/models/security/GroupModel.ts:278-366 | an update carrying only `blocked: true` blocks the group and changes nothing else, as written and corrected |
| GroupModel.OneGrantTupleFetched | backend/src/services/AuthorizationCache.ts:17-38 | the one-grant tables put user 1's tuple in the hash |
| GroupModel.BlockedTupleGone | backend/src/app/repository/UserRepository.ts:56 | once the group is blocked, that tuple is no longer fetched |
| GroupModel.BlockingWithoutRebuildLeavesStaleEntry | backend/src/app/models/security/GroupModel.ts:362-365 | the trigger as written does not fire for the blocking update, yet the update as written removes the tuple from the projection; the corrected trigger fires, so the update misses a rebuild |
| GroupModel.NewGroupRow | backend/src/app/models/security/GroupModel.ts:205-208 | the new row has the id, the submitted name and description, and `blocked` iff submitted true |
| GroupModel.CreatedMemberships | backend/src/app/models/security/GroupModel.ts:213-232 | every submitted user item becomes a membership of the new group, whatever its tag |
| GroupModel.CreatedGrants | backend/src/app/models/security/GroupModel.ts:234-256 | every submitted resource item becomes a grant of the new group, whatever its tag |
| GroupModel.CreateKeepsWellFormed | backend/src/app/models/security/GroupModel.ts:210-257 | a successful create keeps every constraint and adds exactly the row, its memberships and its grants |
| GroupModel.CreateWithoutRebuildKeepsProjection | backend/src/app/models/security/GroupModel.ts:263-266 | without users or without resources a new group changes no tuple, so skipping the rebuild is sound |
| GroupModel.NewGroupJoinsNothing | backend/src/app/models/security/GroupModel.ts:263-266 | a new group lacking memberships or grants adds no join path |
| GroupModel.DeleteGroupEffect | backend/src/app/models/security/GroupModel.ts:437-472 | deleting a group keeps every constraint and removes exactly the tuples of that group |
| GroupModel.CreateGroup | backend/src/app/models/security/GroupModel.ts:204-270 | the next id is taken; on failure tables and cache are unchanged; on success the tables gain the group; the cache is rebuilt iff users and resources were both sent; a consistent cache stays consistent; a body without a description fails with a constraint violation |
| GroupModel.CreateTransaction | backend/src/app/models/security/GroupModel.ts:210-257 | the statements in order compute the create transaction |
| GroupModel.CreateOutcome | backend/src/app/models/security/GroupModel.ts:210-257 | a successful create leaves valid tables whose group ids stay under the next id |
| GroupModel.UpdateGrants | backend/src/app/models/security/GroupModel.ts:325-341 | the update statements one after the other compute the updated grants |
| GroupModel.FinishTransaction | backend/src/app/models/security/GroupModel.ts:307-356 | the statements after the removal of users, in order, compute their function on the tables |
| GroupModel.UpdateTransactionAsWritten | backend/src/app/models/security/GroupModel.ts:296-356 | the statements in order compute the update transaction as written, with the removal by user id only |
| GroupModel.UpdateTransaction | backend/src/app/models/security/GroupModel.ts:296-356 | the statements in order compute the corrected update transaction |
| GroupModel.Commit | backend/src/app/models/security/GroupModel.ts:356-365 | the new tables are stored and the cache is rebuilt from them when asked, else kept |
| GroupModel.UpdateOutcome | backend/src/app/models/security/GroupModel.ts:278-366 | a successful corrected update leaves valid tables under the same id generator, and the same projection when no rebuild runs |
| GroupModel.UpdateOutcomeAsWritten | backend/src/app/models/security/GroupModel.ts:278-366 | a successful update as written leaves valid tables under the same id generator, and the same projection when not even the corrected trigger fires |
| GroupModel.UpdateGroupAsWritten | backend/src/app/models/security/GroupModel.ts:278-366 | updateGroup as written: a failed transaction changes nothing; a successful one stores the tables of the as-written transaction and rebuilds iff users or resources were sent; a consistent cache stays consistent unless the update changes only `blocked` |
| GroupModel.UpdateGroup | backend/src/app/models/security/GroupModel.ts:278-366 | updateGroup corrected: a failed transaction changes nothing; a successful one stores the new tables and rebuilds under the corrected trigger; a consistent cache stays consistent |
| GroupModel.DeleteGroupById | backend/src/app/models/security/GroupModel.ts:437-472 | the group's memberships, grants and row are gone and nothing else; the cache is rebuilt and holds no tuple of the group |
| Requests.TrimStart | backend/src/app/middlewares/Pagination.ts:12-13 | a suffix of the text that does not start with a blank |
| Requests.LeadingDigits | backend/src/app/middlewares/Pagination.ts:12-13 | the longest prefix of decimal digits |
| Requests.ParseIntRoundTrip | backend/src/app/middlewares/Pagination.ts:12-13 | `parseInt` reads back the decimal rendering of a number |
| Requests.ParseDigits | backend/src/app/middlewares/Pagination.ts:12-13 | a text of digits parses to the number it denotes |
| Requests.LeadingDigitsOfDigits | backend/src/app/middlewares/Pagination.ts:12-13 | a text of digits is its own leading digits |
| Requests.RemoveSpaces | backend/src/app/middlewares/validators/security/UserValidator.ts:10-16 | no blank is left, and a text without blanks is unchanged |
| Requests.NumberValueRoundTrip | backend/src/app/middlewares/validators/security/UserValidator.ts:10-16 | the number cast accepts the decimal text of every integer as that integer |
| Requests.NumberValueIgnoresBlanksAndPlus | backend/src/app/middlewares/validators/security/UserValidator.ts:10-16 | blanks around the text and a leading `+` do not change the number |
| Requests.RemoveSpacesOfDigitsThenBlank | backend/src/app/middlewares/validators/security/UserValidator.ts:10-16 | a trailing blank after digits is removed |
| Pagination.ServerPage | backend/src/app/middlewares/Pagination.ts:15 | NaN and 0 give page 1; any other number is kept |
| Pagination.ServerLimit | backend/src/app/middlewares/Pagination.ts:16 | the limit is 20 iff exactly 20 was asked for, else 10 |
| Pagination.Offset | backend/src/app/middlewares/Pagination.ts:22 | page 1 starts at 0; pages from 1 give non-negative offsets |
| Pagination.RowsBefore | backend/src/app/middlewares/Pagination.ts:22 | no rows come before the first page |
| Pagination.OffsetSkipsEarlierPages | backend/src/app/middlewares/Pagination.ts:22 | a page from 1 starts right after the `limit` rows of each earlier page |
| Pagination.OffsetNextPage | backend/src/app/middlewares/Pagination.ts:22 | the next page starts `limit` rows after this one |
| Pagination.PaginatedQuery | backend/src/app/middlewares/Pagination.ts:11-26 | `page` is gone, `offset` and `limit` are set, every other key is kept, `limit` is the server limit, and `offset` is the offset of the server page at the server limit |
| Pagination.OffsetOfPositivePage | backend/src/app/middlewares/Pagination.ts:15-23 | a page from 1 gives a non-negative offset that is a multiple of the limit |
| Pagination.Request.constructor | backend/src/app/middlewares/Pagination.ts:18 | the request holds the query it was given |
| Pagination.Request.Paginate | backend/src/app/middlewares/Pagination.ts:18-24 | the query is rewritten in place into the paginated query |
| GroupValidator.Store | backend/src/app/middlewares/validators/security/GroupValidator.ts:138-146 | passes iff the store schema holds, its name bounds counted in UTF-16 code units; otherwise 400 with the schema's messages |
| GroupValidator.FlagsOf | backend/src/app/middlewares/validators/security/GroupValidator.ts:33-44 | complete submitted permissions give exactly the submitted booleans |
| GroupValidator.GroupIdOf | backend/src/app/middlewares/validators/security/GroupValidator.ts:149-150 | a route id is kept iff it is a non-negative number |
| GroupValidator.ToGroupData | backend/src/app/middlewares/validators/security/GroupValidator.ts:151-161 | the model receives the submitted name, blocked, description and items, one item for each submitted one |
| GroupValidator.UpdateOutcomes | backend/src/app/middlewares/validators/security/GroupValidator.ts:148-164 | 400 iff the schema fails; a throw iff the group is missing; 400 with the name-in-use message iff the name changes to a taken one; passed otherwise |
| GroupValidator.UpdatePassedCanSave | backend/src/app/middlewares/validators/security/GroupValidator.ts:148-164 | an update passed on names an existing group whose new row can be saved |
| GroupValidator.UpdatePassedItems | backend/src/app/middlewares/validators/security/GroupValidator.ts:54-95 | a passed update's items carry only `c`/`u`/`d`, and `c`/`u` items carry the submitted booleans |
| GroupValidator.UpdateNameHasNoMinimum | backend/src/app/middlewares/validators/security/GroupValidator.ts:22-25 | the update schema lets a one-letter name pass, store does not |
| GroupValidator.SupplementaryNameBounds | backend/src/app/middlewares/validators/security/GroupValidator.ts:22-25 | a name of supplementary-plane chars passes store iff it has 2 to 25 chars, and update iff at most 25 |
| GroupValidator.LongEmojiNameRejected | backend/src/app/middlewares/validators/security/GroupValidator.ts:22-25 | 26 × U+1F600 (52 code units) fails both schemas |
| GroupValidator.StoreNameFitsUpdate | backend/src/app/middlewares/validators/security/GroupValidator.ts:21-96 | a store body with `c` items passes the update schema once an id is supplied |
| GroupValidator.StoreGrantsCopySubmitted | backend/src/app/middlewares/validators/security/GroupValidator.ts:33-44 | the grants a stored body creates carry the submitted booleans, `del` landing in `delete` |
| UserValidator.Index | backend/src/app/middlewares/validators/security/UserValidator.ts:83-93 | passes iff the list schema holds, the filters' `min(3)` counted in UTF-16 code units; otherwise 400 |
| UserValidator.PaginatedQueryPassesIndex | backend/src/app/middlewares/validators/security/UserValidator.ts:9-17 | after the pagination middleware only the id and filter rules decide |
| UserValidator.ShortSupplementaryFilterAccepted | backend/src/app/middlewares/validators/security/UserValidator.ts:10-11 | the filter U+1F600 `a` is three code units and meets `min(3)` |
| UserValidator.LargeLimitRejected | backend/src/app/middlewares/validators/security/UserValidator.ts:9-17 | a page size above 20 is refused |
| UserValidator.StoreIgnoresBlocked | backend/src/app/middlewares/validators/security/UserValidator.ts:111-113 | the submitted `blocked` plays no part in store's verdict |
| UserValidator.StoreOutcomes | backend/src/app/middlewares/validators/security/UserValidator.ts:111-129 | passed iff the schema holds and no user has the e-mail; in-use message iff the schema holds and one has; 400 iff the schema fails |
| UserValidator.UpdateRejectsOthersEmail | backend/src/app/middlewares/validators/security/UserValidator.ts:137-156 | a passed update's e-mail belongs to no user but the one updated |
| UserValidator.UpdateAllowsOwnEmail | backend/src/app/middlewares/validators/security/UserValidator.ts:147-153 | keeping one's own e-mail is allowed: only the schema then decides |
| UserValidator.UpdatePasswordNeedsConfirmation | backend/src/app/middlewares/validators/security/UserValidator.ts:55-63 | a non-empty new password passes only with an equal confirmation of 8 to 20 UTF-16 code units |
| UserValidator.LongEmojiPasswordRejected | backend/src/app/middlewares/validators/security/UserValidator.ts:31-34 | 11 × U+1F600 is 22 code units and fails the 8-to-20 bound |
| UserValidator.UpdateWithoutPasswordIgnoresConfirmation | backend/src/app/middlewares/validators/security/UserValidator.ts:56-63 | without a new password the confirmation is not looked at |
| UserValidator.StoreBodyFitsUpdate | backend/src/app/middlewares/validators/security/UserValidator.ts:23-65 | a store body with a confirmation passes the update schema once an id is set |
| ButtonBar.Protect | frontend/src/assets/components/ButtonBar/index.tsx:75-95 | New needs `write`, Save `write` on a `new` page and `update` elsewhere, Delete `del`; other buttons are unchanged; title and `hide` stay |
| ButtonBar.ProtectAgreesWithServer | frontend/src/assets/components/ButtonBar/index.tsx:79-89 | a governed button is enabled iff the server would authorise the request it sends |
| ButtonBar.ProtectIdempotent | frontend/src/assets/components/ButtonBar/index.tsx:75-95 | protecting twice changes nothing more |
| ButtonBar.Rendered | frontend/src/assets/components/ButtonBar/index.tsx:102-105 | nothing before a protected list exists; then exactly the buttons without `hide` |
| ButtonBar.RenderedKeepsOrder | frontend/src/assets/components/ButtonBar/index.tsx:104-105 | rendering keeps the buttons' order |
| ButtonBar.Bar.constructor | frontend/src/assets/components/ButtonBar/index.tsx:58-65 | no permission and no protected list at first |
| ButtonBar.Bar.LoadPermissions | frontend/src/assets/components/ButtonBar/index.tsx:58-65 | the permission is the context's lookup for the page; the protected list is unchanged |
| ButtonBar.Bar.ProtectButtons | frontend/src/assets/components/ButtonBar/index.tsx:72-98 | without a permission nothing changes; with one every button is protected in place and the list becomes the protected one |
| DefaultLayout.FindRoute | frontend/src/containers/DefaultLayout/DefaultLayout.tsx:81-84 | a route found for a path is registered with that path; none iff no route has it |
| DefaultLayout.AppRoutesWellFormed | frontend/src/routes.tsx:22-35 | the route table has one route per path, the dashboard among them |
| DefaultLayout.GrantedStep | frontend/src/containers/DefaultLayout/DefaultLayout.tsx:96-106 | each permission appends the routes it newly grants, in registration order |
| DefaultLayout.GrantedSound | frontend/src/containers/DefaultLayout/DefaultLayout.tsx:96-106 | every granted route is registered, not the dashboard, and starts with some permission's resource |
| DefaultLayout.GrantedComplete | frontend/src/containers/DefaultLayout/DefaultLayout.tsx:96-106 | every such route is granted |
| DefaultLayout.DistinctConcat | frontend/src/containers/DefaultLayout/DefaultLayout.tsx:96-106 | two route lists with no common path concatenate without repeats |
| DefaultLayout.GrantedDistinct | frontend/src/containers/DefaultLayout/DefaultLayout.tsx:89-106 | no route is granted twice |
| DefaultLayout.NewlyGrantedDisjoint | frontend/src/containers/DefaultLayout/DefaultLayout.tsx:100-103 | what a permission adds shares no path with what earlier ones granted |
| DefaultLayout.FilterDistinct | frontend/src/containers/DefaultLayout/DefaultLayout.tsx:96-106 | filtering keeps paths distinct |
| DefaultLayout.DashboardFirst | frontend/src/containers/DefaultLayout/DefaultLayout.tsx:92-93 | the dashboard route always comes first |
| DefaultLayout.AllowedRoutesByPrefix | frontend/src/containers/DefaultLayout/DefaultLayout.tsx:79-109 | any other route is loaded iff it is registered and its path starts with some permission's resource |
| DefaultLayout.AllowedRoutesDistinct | frontend/src/containers/DefaultLayout/DefaultLayout.tsx:79-109 | no route path is loaded twice |
| DefaultLayout.PrefixIsNotASegment | frontend/src/containers/DefaultLayout/DefaultLayout.tsx:100-103 | the check is a string prefix: a permission on `/user` opens `/users/:id` |
| DefaultLayout.CoveredPathsMembers | frontend/src/containers/DefaultLayout/DefaultLayout.tsx:89 | the cache of allowed paths holds exactly the covered paths |
| DefaultLayout.FilteredApplicationRoutes | frontend/src/containers/DefaultLayout/DefaultLayout.tsx:79-109 | the loops load exactly the allowed routes: the dashboard, then each permission's new routes in order |
| DefaultLayout.GrantPass | frontend/src/containers/DefaultLayout/DefaultLayout.tsx:96-106 | one pass appends what the permission newly grants and extends the cache accordingly |
| DefaultLayout.PassStep | frontend/src/containers/DefaultLayout/DefaultLayout.tsx:100-103 | a route is added iff the permission newly grants it |
| DefaultLayout.PassStart | frontend/src/containers/DefaultLayout/DefaultLayout.tsx:96-106 | a pass starts from the cache of the earlier permissions |
| DefaultLayout.PassEnd | frontend/src/containers/DefaultLayout/DefaultLayout.tsx:96-106 | after a whole pass the cache covers this permission too |
| DefaultLayout.PathNotEarlier | frontend/src/routes.tsx:22-35 | with distinct paths a route's path is not among the earlier ones |
| DefaultLayout.MatchedBeforeStep | frontend/src/containers/DefaultLayout/DefaultLayout.tsx:100-103 | one more permission covers its own prefix in addition |
| DefaultLayout.UserResources | frontend/src/containers/DefaultLayout/DefaultLayout.tsx:116 | exactly the permissions' resources |
| DefaultLayout.Prune | frontend/src/containers/DefaultLayout/DefaultLayout.tsx:123-135 | a parent keeps exactly the children on a resource; a leaf is unchanged |
| DefaultLayout.PruneAll | frontend/src/containers/DefaultLayout/DefaultLayout.tsx:123-135 | every item pruned, in place |
| DefaultLayout.MenuLeaves | frontend/src/containers/DefaultLayout/DefaultLayout.tsx:118-120 | a leaf is shown iff its url is one of the resources |
| DefaultLayout.InPruneAll | frontend/src/containers/DefaultLayout/DefaultLayout.tsx:123-135 | every item's pruned form is in the pruned list |
| DefaultLayout.PrunedHasChildren | frontend/src/containers/DefaultLayout/DefaultLayout.tsx:123-135 | a pruned parent has children iff one of its children is on a resource |
| DefaultLayout.MenuParents | frontend/src/containers/DefaultLayout/DefaultLayout.tsx:123-135 | a parent is shown, pruned, iff one of its children is on a resource |
| DefaultLayout.MenuParentsPruned | frontend/src/containers/DefaultLayout/DefaultLayout.tsx:123-135 | every shown parent is a configured parent, pruned, with children |
| DefaultLayout.MenuLeavesFirst | frontend/src/containers/DefaultLayout/DefaultLayout.tsx:137-139 | leaves come before parents |
| DefaultLayout.Navigation.constructor | frontend/src/_nav.tsx:12-37 | the shared navigation holds the configured items |
| DefaultLayout.FilteredUserMenuAsWritten | frontend/src/containers/DefaultLayout/DefaultLayout.tsx:115-142 | the menu of the current navigation, which is left pruned to this user's resources |
| DefaultLayout.SignInTwiceAsWritten | frontend/src/containers/DefaultLayout/DefaultLayout.tsx:131 | as written, the second sign-in's menu is computed from the first user's pruned navigation |
| DefaultLayout.PruneTwice | frontend/src/containers/DefaultLayout/DefaultLayout.tsx:131 | pruning a pruned parent keeps the children both resource sets contain |
| DefaultLayout.SecondMenuIntersects | frontend/src/containers/DefaultLayout/DefaultLayout.tsx:131 | two prunings in a row are one pruning by the intersection |
| DefaultLayout.ResourcesOfExamples | frontend/src/containers/DefaultLayout/DefaultLayout.tsx:116 | the resources of the two example users |
| DefaultLayout.FullMenuForUsersAndGroups | frontend/src/_nav.tsx:12-37 | from the configured navigation a users-and-groups user sees the full security menu |
| DefaultLayout.MenuLeaksAcrossSignIns | frontend/src/containers/DefaultLayout/DefaultLayout.tsx:131 | after a users-only user, the users-and-groups user's security menu lacks Group Permissions |
| DefaultLayout.FilteredUserMenu | frontend/src/containers/DefaultLayout/DefaultLayout.tsx:115-142 | the corrected menu is computed from the navigation as configured, which it leaves unchanged |
| DefaultLayout.SignInTwice | frontend/src/containers/DefaultLayout/DefaultLayout.tsx:115-142 | with the corrected menu each sign-in sees the menu of its own permissions |
| DefaultLayout.Layout.constructor | frontend/src/containers/DefaultLayout/DefaultLayout.tsx:43-54 | no routes and one empty menu item at first |
| DefaultLayout.Layout.ComponentDidMountAsWritten | frontend/src/containers/DefaultLayout/DefaultLayout.tsx:62-72 | componentDidMount as written: the routes and the menu are those of the signed-in user's permissions, none without a user, and the shared navigation is left pruned to those permissions |
| DefaultLayout.Layout.ComponentDidMount | frontend/src/containers/DefaultLayout/DefaultLayout.tsx:62-72 | componentDidMount with the corrected menu: the routes and the menu are those of the signed-in user's permissions, none without a user, and the navigation is not changed |
| GroupMainForm.UserComparator | frontend/src/views/Groups/Edit/GroupMainForm.tsx:94-104 | the result is -1, 0 or 1 |
| GroupMainForm.ComparatorZero | frontend/src/views/Groups/Edit/GroupMainForm.tsx:94-104 | 0 iff the lower-cased names are equal |
| GroupMainForm.ComparatorAntisymmetric | frontend/src/views/Groups/Edit/GroupMainForm.tsx:94-104 | swapping the arguments negates the result |
| GroupMainForm.ComparatorTransitive | frontend/src/views/Groups/Edit/GroupMainForm.tsx:94-104 | "comes before" is transitive, so the comparator is a consistent sort order |
| GroupMainForm.ComparatorNotAfterTransitive | frontend/src/views/Groups/Edit/GroupMainForm.tsx:94-104 | "does not come after" is transitive |
| GroupMainForm.SortedTail | frontend/src/views/Groups/Edit/GroupMainForm.tsx:272 | the rows behind the first of a sorted list are sorted |
| GroupMainForm.PrependSorted | frontend/src/views/Groups/Edit/GroupMainForm.tsx:272 | a row not after the first of a sorted list can go in front of it |
| GroupMainForm.ConsSorted | frontend/src/views/Groups/Edit/GroupMainForm.tsx:272 | the first row of a sorted list stays first when a row after it is inserted behind it |
| GroupMainForm.InsertByName | frontend/src/views/Groups/Edit/GroupMainForm.tsx:272 | one row more, the same rows otherwise, and a sorted list stays sorted |
| GroupMainForm.SortedUsers | frontend/src/views/Groups/Edit/GroupMainForm.tsx:272 | the sorted list is a permutation of the users list, in comparator order |
| GroupMainForm.SortedUsersOfSorted | frontend/src/views/Groups/Edit/GroupMainForm.tsx:272 | a list already in order is left as it is |
| GroupMainForm.SortedUsersIdempotent | frontend/src/views/Groups/Edit/GroupMainForm.tsx:272 | sorting twice, as every further render does, is sorting once |
| GroupMainForm.IndexOfId | frontend/src/views/Groups/Edit/GroupMainForm.tsx:112-119 | `findIndex` gives the first row with the id, or -1 iff there is none |
| GroupMainForm.AddToList | frontend/src/views/Groups/Edit/GroupMainForm.tsx:112-119 | a row whose id is listed is not added; otherwise it is appended tagged `c`; the ids become the old ones plus its id |
| GroupMainForm.AddResource | frontend/src/views/Groups/Edit/GroupMainForm.tsx:132-140 | the same check; an appended resource has all permissions off and is tagged `c` |
| GroupMainForm.AppendKeepsIdsUnique | frontend/src/views/Groups/Edit/GroupMainForm.tsx:112-140 | appending a new id keeps ids unique |
| GroupMainForm.AddKeepsIdsUnique | frontend/src/views/Groups/Edit/GroupMainForm.tsx:112-140 | adding a user or a resource keeps ids unique |
| GroupMainForm.ApplyPick | frontend/src/views/Groups/Edit/GroupMainForm.tsx:112-140 | a pick leaves the id, name, blocked and description alone |
| GroupMainForm.PicksKeepIdsUnique | frontend/src/views/Groups/Edit/GroupMainForm.tsx:112-140 | any series of picks keeps the ids of both lists unique |
| GroupMainForm.Toggle | frontend/src/views/Groups/Edit/GroupMainForm.tsx:149-167 | a switch flips its own flag and no other |
| GroupMainForm.ToggleTwice | frontend/src/views/Groups/Edit/GroupMainForm.tsx:149-167 | flipping a switch twice restores the permissions |
| GroupMainForm.ToggleCommutes | frontend/src/views/Groups/Edit/GroupMainForm.tsx:149-167 | the order two switches are flipped in does not matter |
| GroupMainForm.ChangeResourcePermission | frontend/src/views/Groups/Edit/GroupMainForm.tsx:149-167 | the row at the index gets one flag flipped; every other row is unchanged |
| GroupMainForm.ChangeResourcePermissionTwice | frontend/src/views/Groups/Edit/GroupMainForm.tsx:149-167 | clicking the same switch twice restores the list |
| GroupMainForm.SetDestroy | frontend/src/views/Groups/Edit/GroupMainForm.tsx:280-284 | only the row's removal check box changes |
| GroupMainForm.FormState.constructor | frontend/src/views/Groups/Edit/GroupMainForm.tsx:31-61 | the form holds the values it was given |
| GroupMainForm.FormState.SortUsers | frontend/src/views/Groups/Edit/GroupMainForm.tsx:271-273 | the form's own users list is replaced by its sorted permutation, the other fields are kept |
| GroupMainForm.FormState.AddUserToGroup | frontend/src/views/Groups/Edit/GroupMainForm.tsx:112-119 | the users list becomes the list with the user added |
| GroupMainForm.FormState.AddResourceToGroup | frontend/src/views/Groups/Edit/GroupMainForm.tsx:132-140 | the permissions list becomes the list with the resource added |
| GroupMainForm.FormState.ChangePermission | frontend/src/views/Groups/Edit/GroupMainForm.tsx:149-167 | the permissions list gets the switch flipped |
| GroupMainForm.FormState.CheckUserForRemoval | frontend/src/views/Groups/Edit/GroupMainForm.tsx:280-284 | the users list gets the row's check box set |
| GroupMainForm.FormState.CheckResourceForRemoval | frontend/src/views/Groups/Edit/GroupMainForm.tsx:348-352 | the permissions list gets the row's check box set |
| GroupEdit.TagForUpdate | frontend/src/views/Groups/Edit/index.tsx:57-67 | every fetched row is tagged `u`; nothing else about it changes |
| GroupEdit.Loaded | frontend/src/views/Groups/Edit/index.tsx:54-75 | the fetched group with each list replaced by the same rows, in the same order, each tagged `u` |
| GroupEdit.MarkDeleted | frontend/src/views/Groups/Edit/index.tsx:117-123 | a checked row is tagged `d`, any other row is unchanged |
| GroupEdit.MarkAllDeleted | frontend/src/views/Groups/Edit/index.tsx:117-123 | every row marked |
| GroupEdit.Prepared | frontend/src/views/Groups/Edit/index.tsx:113-124 | an empty list stays as it is; no row is added |
| GroupEdit.PreparedMembers | frontend/src/views/Groups/Edit/index.tsx:113-137 | the surviving rows are the rows not both new and checked, each tagged `d` when checked |
| GroupEdit.PreparedTags | frontend/src/views/Groups/Edit/index.tsx:113-137 | after preparing every checked row is tagged `d` and no discarded row is left |
| GroupEdit.PreparedSingle | frontend/src/views/Groups/Edit/index.tsx:116-123 | one row alone is dropped when discarded, else kept and marked |
| GroupEdit.MarkAllDeletedConcat | frontend/src/views/Groups/Edit/index.tsx:117-123 | marking splits over concatenation |
| GroupEdit.PreparedConcat | frontend/src/views/Groups/Edit/index.tsx:113-137 | preparing splits over concatenation, so the surviving rows keep their order |
| GroupEdit.PreparedIdempotent | frontend/src/views/Groups/Edit/index.tsx:111-140 | preparing a prepared list changes nothing |
| GroupEdit.PrepareItems | frontend/src/views/Groups/Edit/index.tsx:113-124 | the pass over one list gives the prepared list |
| GroupEdit.PrepareDataBeforeSubmit | frontend/src/views/Groups/Edit/index.tsx:111-140 | both lists are prepared, every other field is as submitted |
| GroupEdit.EditScreen.constructor | frontend/src/views/Groups/Edit/index.tsx:10-17 | the screen starts on the empty form with Delete hidden |
| GroupEdit.EditScreen.LoadHandler | frontend/src/views/Groups/Edit/index.tsx:54-75 | the form shows the loaded group and Delete is shown |
| GroupEdit.EditScreen.NewHandler | frontend/src/views/Groups/Edit/index.tsx:97-101 | back to the empty form with Delete hidden |

Proof helpers carry contracts but have no row of their own: `AuthorizationCache.EntriesForSnoc`
and `SuffixAt`, `SessionModel.FindUserSameIds`, `Seqs.FilterStep` and `ConcatAssoc`, and
`Strings.DigitChar`, `DigitValue`, `ColonAt` and `DigitAt`.

## Left out

- The Redis client and its connection handling are not modelled; the hash is a map held by `AuthorizationCache.Cache`.
- AuthorizationCache.Cache.HScan: the source calls HSCAN once with cursor 0 (AuthorizationCache.ts:55, 91) and reads only that first page; the model's reply always holds every match, so for a large hash the model promises more than the code delivers.
- AuthorizationCache.Matches: the resource is matched literally; glob metacharacters (`*`, `?`, `[`) inside a resource name are not modelled.
- JSON: the `JSON.stringify`/`JSON.parse` of the stored value is taken as the identity on the three flags.
- Concurrency and unawaited promises are not modelled. This covers the `forEach` of `hset` (AuthorizationCache.ts:25-35), the `forEach` of grant updates (GroupModel.ts:326-340), the unawaited attempt-counter statements (SessionModel.ts:43, 48, 78, 91). Each model statement completes before the next one starts, so the window in which the cache is empty or partly refilled during a rebuild is not modelled.
- bcrypt's `compare`, `jwt.sign` and `new Date()` are parameters of `SessionModel.SignUp`. A throwing `jwt.sign` (SessionModel.ts:55-58) is not modelled.
- TypeORM is not modelled: transaction objects, timestamps (`createdAt`, `updatedAt`) and the query builders. They are replaced by functions on `Tables`; a failing statement aborts the whole transaction.
- `listUsers`, `listGroups`, `fetchGroupById` and the resource controller's listing are left out. They are query plumbing; their response builder is modelled as `GroupModel.GroupDataBuilder`.
- Yup is not modelled: its e-mail regular expression is the `validEmail` parameter, and its type coercion is `Requests.NumberValue`/`StringValue`.
- Requests.NumberValue: only texts that are decimal integers once their blanks are removed, with an optional `+` or `-`, are accepted as numbers. Yup's `number()` also accepts fractions (`"1.5"`), exponents (`"1e3"`), hexadecimal, binary and octal literals and `Infinity`, which the model rejects with 400; only ASCII blanks count as white space. The group validator's `indexSchema`, `readSchema` and `deleteSchema` and the user validator's `readSchema` and `deleteSchema` are left out: they only check that an id is a number.
- GroupMainForm.UserComparator: `toLocaleLowerCase` is the `lower` parameter; locale rules are not modelled. Names are compared by Unicode scalar value, while JavaScript's `<` compares UTF-16 code units, so a supplementary-plane character (such as U+1F600) and a character in U+E000..U+FFFF (such as U+FF01) are ordered differently.
- The frontend `GroupFormSchema` (GroupMainForm.tsx:69-77) is left out: it is form-field validation that the server validators repeat.
- GroupMainForm.SortedUsers: the sort is defined as a stable insertion sort, as `Array.prototype.sort` is stable; the contract states the permutation and the order, and not that rows comparing equal keep their order.
- The `default: throw` of `changeResourcePermission` (GroupMainForm.tsx:162-163) is left out: the switch type rules it out.
- The edit screen's `saveHandler`, `updateHandler` and `deleteHandler` are left out: they only call the API. What they send is `GroupEdit.PrepareDataBeforeSubmit`.
- Aliasing of the row objects that the form and the loaded group share is not modelled: rows are values.
- ButtonBar: colour, type and click action of the buttons are left out.
- Requests.ParseIntText: only ASCII blanks count as leading white space; Unicode white space and the loss of precision for numbers above 2^53 are not modelled.
- DefaultLayout.FilteredApplicationRoutes: the route table must have distinct paths (`PathsDistinct`); a `Map` built from duplicate paths keeps only the last one, which the model does not cover.
- Browser storage of the session (AuthContext.tsx:115-136) is left out: the constructor takes what the session held as a parameter.
- The startup validator and the HTTP plumbing (routing, controllers' response codes, error handler) are left out.

## Findings

| source | as written | input that shows it | evidently intended | confidence | as-written member | corrected member |
|---|---|---|---|---|---|---|
| backend/src/app/models/security/GroupModel.ts:298-304 | a user item tagged `d` deletes `groups_users` rows `where user_id in (ids)`, with no condition on the group | user 7 in groups 1 and 2; update group 1 with user 7 tagged `d`: the membership of 7 in group 2 is deleted too | remove the user from the updated group only | not executed | GroupModel.RemoveUsersStepAsWritten, GroupModel.UpdateGroupAsWritten, GroupModel.RemovalLeaksToOtherGroups | GroupModel.RemoveUsersStep, GroupModel.UpdateGroup, GroupModel.UpdateLeavesOtherGroups |
| backend/src/app/models/security/GroupModel.ts:362-365 | the cache is rebuilt after an update only when `users` or `resources` was submitted | a group with one member and a grant on `/users`; update it with only `blocked: true` (`GroupModel.BlockOnlyUpdate`): no rebuild, and the member keeps a cached grant that a rebuild would remove | also rebuild when the group's `blocked` changes | not executed | GroupModel.RebuildOnUpdateAsWritten, GroupModel.UpdateGroupAsWritten, GroupModel.BlockingWithoutRebuildLeavesStaleEntry | GroupModel.RebuildOnUpdate, GroupModel.UpdateGroup, GroupModel.NoRebuildKeepsProjection |
| frontend/src/containers/DefaultLayout/DefaultLayout.tsx:131 | `navItem.children = subMenuItems` writes the pruned children back into the shared navigation object | a user with `/users` only signs in, signs out, and a user with `/users` and `/groups` signs in on the same page: the second user's Security menu lacks Group Permissions | compute the menu from a copy and leave the navigation as configured | not executed | DefaultLayout.FilteredUserMenuAsWritten, DefaultLayout.Layout.ComponentDidMountAsWritten, DefaultLayout.SignInTwiceAsWritten, DefaultLayout.MenuLeaksAcrossSignIns | DefaultLayout.FilteredUserMenu, DefaultLayout.Layout.ComponentDidMount, DefaultLayout.SignInTwice, DefaultLayout.FullMenuForUsersAndGroups |
