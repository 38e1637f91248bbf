/**
 * The group edit form: the users and permissions lists it holds, how a
 * user or a resource picked from a popup joins them, how a permission
 * switch flips one flag of a row, how a row is checked for removal, and
 * the order the users are listed in.
 */
module GroupMainForm {
  import opened Wrappers
  import opened Strings
  import opened Entities

  /** The tag a row carries to the server: create, update or delete the association. */
  datatype Operation = Create | Update | Delete

  /** The three switches of a permissions row. */
  datatype PermissionSwitch = WriteSwitch | UpdateSwitch | DeleteSwitch

  /**
   * A row of the users list or of the permissions list. Both carry the id,
   * the name, the tag and the `destroy` check box; a user row has the
   * e-mail, a resource row the three permission flags.
   */
  datatype FormItem =
    | UserItem(id: int, name: string, email: string, operation: Option<Operation>, destroy: Option<bool>)
    | ResourceItem(id: int, name: string, permissions: Flags, operation: Option<Operation>, destroy: Option<bool>)

  /** The form's fields. */
  datatype GroupFormFields = GroupFormFields(id: string, name: string, blocked: bool, description: Option<string>,
                                             users: seq<FormItem>, resources: seq<FormItem>)

  /** The users list holds user rows and the permissions list resource rows. */
  predicate WellTyped(f: GroupFormFields) {
    && (forall i :: 0 <= i < |f.users| ==> f.users[i].UserItem?)
    && (forall i :: 0 <= i < |f.resources| ==> f.resources[i].ResourceItem?)
  }

  // ---------------------------------------------------------------------------
  // userComparator
  // ---------------------------------------------------------------------------

  /**
   * userComparator: names compared after lower-casing, -1, 1 or 0; `lower`
   * stands for `toLocaleLowerCase`.
   */
  function UserComparator(user1: FormItem, user2: FormItem, lower: string -> string): (r: int)
    ensures r == -1 || r == 0 || r == 1
  {
    var a := lower(user1.name);
    var b := lower(user2.name);
    if LexLess(a, b) then -1 else if LexLess(b, a) then 1 else 0
  }

  /** Two users compare equal exactly when their names are equal once lower-cased. */
  lemma ComparatorZero(user1: FormItem, user2: FormItem, lower: string -> string)
    ensures UserComparator(user1, user2, lower) == 0 <==> lower(user1.name) == lower(user2.name)
  {
    LexLessTrichotomous(lower(user1.name), lower(user2.name));
    LexLessIrreflexive(lower(user1.name));
  }

  /** Swapping the arguments negates the result. */
  lemma ComparatorAntisymmetric(user1: FormItem, user2: FormItem, lower: string -> string)
    ensures UserComparator(user1, user2, lower) == -UserComparator(user2, user1, lower)
  {
    LexLessAsymmetric(lower(user1.name), lower(user2.name));
  }

  /** "Comes before" is transitive, so the comparator is a consistent order for sorting. */
  lemma ComparatorTransitive(user1: FormItem, user2: FormItem, user3: FormItem, lower: string -> string)
    requires UserComparator(user1, user2, lower) < 0 && UserComparator(user2, user3, lower) < 0
    ensures UserComparator(user1, user3, lower) < 0
  {
    LexLessTransitive(lower(user1.name), lower(user2.name), lower(user3.name));
  }

  /** "Does not come after" is transitive as well. */
  lemma ComparatorNotAfterTransitive(user1: FormItem, user2: FormItem, user3: FormItem, lower: string -> string)
    requires UserComparator(user1, user2, lower) <= 0 && UserComparator(user2, user3, lower) <= 0
    ensures UserComparator(user1, user3, lower) <= 0
  {
    var a, b, c := lower(user1.name), lower(user2.name), lower(user3.name);
    LexLessTrichotomous(a, b);
    LexLessTrichotomous(b, c);
    if LexLess(c, a) {
      if a == b {
        LexLessAsymmetric(b, c);
      } else if b == c {
        LexLessAsymmetric(a, b);
      } else {
        LexLessTransitive(a, b, c);
        LexLessAsymmetric(a, c);
      }
    }
  }

  // ---------------------------------------------------------------------------
  // values.users.sort(userComparator)
  // ---------------------------------------------------------------------------

  /** No row comes after a row listed behind it. */
  predicate SortedByName(users: seq<FormItem>, lower: string -> string) {
    forall i, j :: 0 <= i < j < |users| ==> UserComparator(users[i], users[j], lower) <= 0
  }

  /** The rows behind the first of a sorted list are sorted. */
  lemma SortedTail(users: seq<FormItem>, lower: string -> string)
    requires |users| > 0 && SortedByName(users, lower)
    ensures SortedByName(users[1..], lower)
  {
    forall i, j | 0 <= i < j < |users[1..]|
      ensures UserComparator(users[1..][i], users[1..][j], lower) <= 0
    {
      assert users[1..][i] == users[i + 1] && users[1..][j] == users[j + 1];
    }
  }

  /** A row that does not come after the first of a sorted list can be put in front of it. */
  lemma PrependSorted(x: FormItem, users: seq<FormItem>, lower: string -> string)
    requires |users| > 0 && SortedByName(users, lower) && UserComparator(x, users[0], lower) <= 0
    ensures SortedByName([x] + users, lower)
  {
    var r := [x] + users;
    forall j | 0 < j < |r|
      ensures UserComparator(x, r[j], lower) <= 0
    {
      if j > 1 {
        ComparatorNotAfterTransitive(x, users[0], r[j], lower);
      }
    }
    forall i, j | 0 < i < j < |r|
      ensures UserComparator(r[i], r[j], lower) <= 0
    {
      assert r[i] == users[i - 1] && r[j] == users[j - 1];
    }
  }

  /** The first row of a sorted list stays first when a row after it is inserted behind it. */
  lemma ConsSorted(users: seq<FormItem>, x: FormItem, rest: seq<FormItem>, lower: string -> string)
    requires |users| > 0 && SortedByName(users, lower) && SortedByName(rest, lower)
    requires UserComparator(x, users[0], lower) > 0
    requires multiset(rest) == multiset(users[1..]) + multiset{x}
    ensures SortedByName([users[0]] + rest, lower)
  {
    var r := [users[0]] + rest;
    forall j | 0 < j < |r|
      ensures UserComparator(users[0], r[j], lower) <= 0
    {
      assert r[j] == rest[j - 1];
      assert r[j] in multiset(rest);
      if r[j] == x {
        ComparatorAntisymmetric(x, users[0], lower);
      } else {
        assert r[j] in multiset(users[1..]);
        var k :| 0 <= k < |users[1..]| && users[1..][k] == r[j];
        assert users[k + 1] == r[j];
      }
    }
    forall i, j | 0 < i < j < |r|
      ensures UserComparator(r[i], r[j], lower) <= 0
    {
      assert r[i] == rest[i - 1] && r[j] == rest[j - 1];
    }
  }

  /** Placing a row before the first row it does not come after. */
  function InsertByName(x: FormItem, users: seq<FormItem>, lower: string -> string): (r: seq<FormItem>)
    ensures multiset(r) == multiset(users) + multiset{x}
    ensures SortedByName(users, lower) ==> SortedByName(r, lower)
  {
    if |users| == 0 then [x]
    else if UserComparator(x, users[0], lower) <= 0 then
      if SortedByName(users, lower) then PrependSorted(x, users, lower); [x] + users
      else [x] + users
    else
      var rest := InsertByName(x, users[1..], lower);
      assert users == [users[0]] + users[1..];
      if SortedByName(users, lower) then
        SortedTail(users, lower);
        ConsSorted(users, x, rest, lower);
        [users[0]] + rest
      else [users[0]] + rest
  }

  /**
   * `values.users.sort(...)`: the rows ordered by lower-cased name, rows that
   * compare equal keeping their order. The render sorts the form's own array,
   * so this order is also the order the users are submitted in.
   */
  function SortedUsers(users: seq<FormItem>, lower: string -> string): (r: seq<FormItem>)
    ensures multiset(r) == multiset(users)
    ensures SortedByName(r, lower)
  {
    if |users| == 0 then []
    else
      assert users == [users[0]] + users[1..];
      InsertByName(users[0], SortedUsers(users[1..], lower), lower)
  }

  /** Sorting a sorted list leaves it as it is, so every further render keeps the order. */
  lemma {:induction false} SortedUsersOfSorted(users: seq<FormItem>, lower: string -> string)
    requires SortedByName(users, lower)
    ensures SortedUsers(users, lower) == users
  {
    if |users| > 0 {
      var x, rest := users[0], users[1..];
      SortedTail(users, lower);
      SortedUsersOfSorted(rest, lower);
      assert SortedUsers(users, lower) == InsertByName(x, rest, lower);
      if |rest| > 0 {
        assert rest[0] == users[1] && UserComparator(x, rest[0], lower) <= 0;
      }
      assert users == [x] + rest;
    }
  }

  /** Sorting twice is sorting once. */
  lemma SortedUsersIdempotent(users: seq<FormItem>, lower: string -> string)
    ensures SortedUsers(SortedUsers(users, lower), lower) == SortedUsers(users, lower)
  {
    SortedUsersOfSorted(SortedUsers(users, lower), lower);
  }

  // ---------------------------------------------------------------------------
  // addUserToGroup and addResourceToGroup
  // ---------------------------------------------------------------------------

  /** `list.findIndex(x => x.id === id)`: the first row with that id, or -1. */
  function IndexOfId(items: seq<FormItem>, id: int): (r: int)
    ensures -1 <= r < |items|
    ensures r == -1 <==> forall i :: 0 <= i < |items| ==> items[i].id != id
    ensures r >= 0 ==> items[r].id == id && forall i :: 0 <= i < r ==> items[i].id != id
  {
    if |items| == 0 then -1
    else if items[0].id == id then 0
    else
      var rest := IndexOfId(items[1..], id);
      assert forall i :: 1 <= i < |items| ==> items[1..][i - 1] == items[i];
      if rest == -1 then -1 else rest + 1
  }

  function Ids(items: seq<FormItem>): set<int> {
    set x | x in items :: x.id
  }

  predicate IdsUnique(items: seq<FormItem>) {
    forall i, j :: 0 <= i < j < |items| ==> items[i].id != items[j].id
  }

  /**
   * The check both popups make, addUserToGroup in full: a row whose id is
   * already listed is not added again; otherwise it is appended tagged `c`.
   */
  function AddToList(items: seq<FormItem>, x: FormItem): (r: seq<FormItem>)
    ensures |items| <= |r| <= |items| + 1 && r[..|items|] == items
    ensures |r| == |items| + 1 <==> x.id !in Ids(items)
    ensures |r| == |items| + 1 ==> r[|items|] == x.(operation := Some(Create))
    ensures Ids(r) == Ids(items) + {x.id}
  {
    if IndexOfId(items, x.id) == -1 then
      var r := items + [x.(operation := Some(Create))];
      assert x.id !in Ids(items);
      assert r[|items|] in r;
      r
    else
      var i := IndexOfId(items, x.id);
      assert items[i] in items;
      items
  }

  /**
   * addResourceToGroup: the same id check; an appended resource has all
   * three permissions off and is tagged `c`.
   */
  function AddResource(resources: seq<FormItem>, resource: FormItem): (r: seq<FormItem>)
    requires resource.ResourceItem?
    ensures |resources| <= |r| <= |resources| + 1 && r[..|resources|] == resources
    ensures |r| == |resources| + 1 <==> resource.id !in Ids(resources)
    ensures |r| == |resources| + 1 ==>
      r[|resources|] == resource.(permissions := Flags(false, false, false), operation := Some(Create))
    ensures Ids(r) == Ids(resources) + {resource.id}
  {
    var picked := resource.(permissions := Flags(false, false, false), operation := Some(Create));
    assert picked.id == resource.id;
    AddToList(resources, picked)
  }

  /** Appending a row whose id is new keeps the ids unique. */
  lemma AppendKeepsIdsUnique(items: seq<FormItem>, x: FormItem)
    requires IdsUnique(items) && x.id !in Ids(items)
    ensures IdsUnique(items + [x])
  {
    forall i | 0 <= i < |items|
      ensures (items + [x])[i].id != x.id
    {
      assert items[i] in items;
    }
  }

  /** Adding one user or resource keeps the ids of its list unique. */
  lemma AddKeepsIdsUnique(items: seq<FormItem>, x: FormItem)
    requires IdsUnique(items)
    ensures IdsUnique(AddToList(items, x))
    ensures x.ResourceItem? ==> IdsUnique(AddResource(items, x))
  {
    var r := AddToList(items, x);
    if |r| == |items| + 1 {
      assert r == items + [r[|items|]];
      AppendKeepsIdsUnique(items, r[|items|]);
    } else {
      assert r == r[..|items|];
    }
    if x.ResourceItem? {
      var s := AddResource(items, x);
      if |s| == |items| + 1 {
        assert s == items + [s[|items|]];
        AppendKeepsIdsUnique(items, s[|items|]);
      } else {
        assert s == s[..|items|];
      }
    }
  }

  /** A pick from one of the two popups. */
  datatype Pick = PickedUser(user: FormItem) | PickedResource(resource: FormItem)

  function ApplyPick(f: GroupFormFields, p: Pick): (g: GroupFormFields)
    requires p.PickedResource? ==> p.resource.ResourceItem?
    ensures g.id == f.id && g.name == f.name && g.blocked == f.blocked && g.description == f.description
  {
    match p
    case PickedUser(u) => f.(users := AddToList(f.users, u))
    case PickedResource(r) => f.(resources := AddResource(f.resources, r))
  }

  predicate ResourcePicks(picks: seq<Pick>) {
    forall i :: 0 <= i < |picks| && picks[i].PickedResource? ==> picks[i].resource.ResourceItem?
  }

  /** The form after a series of picks, in order. */
  function ApplyPicks(f: GroupFormFields, picks: seq<Pick>): GroupFormFields
    requires ResourcePicks(picks)
    decreases |picks|
  {
    if |picks| == 0 then f
    else ApplyPicks(ApplyPick(f, picks[0]), picks[1..])
  }

  /** Any series of picks keeps the ids of both lists unique, provided they were unique at the start. */
  lemma {:induction false} PicksKeepIdsUnique(f: GroupFormFields, picks: seq<Pick>)
    requires ResourcePicks(picks)
    requires IdsUnique(f.users) && IdsUnique(f.resources)
    ensures var g := ApplyPicks(f, picks);
      IdsUnique(g.users) && IdsUnique(g.resources)
    decreases |picks|
  {
    if |picks| > 0 {
      match picks[0] {
        case PickedUser(u) => AddKeepsIdsUnique(f.users, u);
        case PickedResource(r) => AddKeepsIdsUnique(f.resources, r);
      }
      PicksKeepIdsUnique(ApplyPick(f, picks[0]), picks[1..]);
    }
  }

  // ---------------------------------------------------------------------------
  // changeResourcePermission and the destroy check box
  // ---------------------------------------------------------------------------

  /** A switch flips its own flag and no other. */
  function Toggle(p: Flags, s: PermissionSwitch): (q: Flags)
    ensures q.write != p.write <==> s == WriteSwitch
    ensures q.update != p.update <==> s == UpdateSwitch
    ensures q.del != p.del <==> s == DeleteSwitch
  {
    match s
    case WriteSwitch => p.(write := !p.write)
    case UpdateSwitch => p.(update := !p.update)
    case DeleteSwitch => p.(del := !p.del)
  }

  /** Flipping the same switch twice restores the permissions. */
  lemma ToggleTwice(p: Flags, s: PermissionSwitch)
    ensures Toggle(Toggle(p, s), s) == p
  {
  }

  /** The order two switches are flipped in does not matter. */
  lemma ToggleCommutes(p: Flags, s: PermissionSwitch, t: PermissionSwitch)
    ensures Toggle(Toggle(p, s), t) == Toggle(Toggle(p, t), s)
  {
  }

  /** changeResourcePermission: the row at `index` with one flag flipped, every other row as it was. */
  function ChangeResourcePermission(resources: seq<FormItem>, s: PermissionSwitch, index: nat): (r: seq<FormItem>)
    requires index < |resources| && resources[index].ResourceItem?
    ensures |r| == |resources| && r[index].ResourceItem?
    ensures forall i :: 0 <= i < |r| && i != index ==> r[i] == resources[i]
    ensures r[index] == resources[index].(permissions := Toggle(resources[index].permissions, s))
  {
    resources[index := resources[index].(permissions := Toggle(resources[index].permissions, s))]
  }

  /** Clicking the same switch twice restores the list. */
  lemma ChangeResourcePermissionTwice(resources: seq<FormItem>, s: PermissionSwitch, index: nat)
    requires index < |resources| && resources[index].ResourceItem?
    ensures ChangeResourcePermission(ChangeResourcePermission(resources, s, index), s, index) == resources
  {
    var once := ChangeResourcePermission(resources, s, index);
    var twice := ChangeResourcePermission(once, s, index);
    ToggleTwice(resources[index].permissions, s);
    assert forall i :: 0 <= i < |resources| ==> twice[i] == resources[i];
  }

  /** The removal check box of a row: `replace(index, {...row, destroy: checked})`. */
  function SetDestroy(items: seq<FormItem>, index: nat, checked: bool): (r: seq<FormItem>)
    requires index < |items|
    ensures |r| == |items|
    ensures forall i :: 0 <= i < |r| && i != index ==> r[i] == items[i]
    ensures r[index].destroy == Some(checked) && r[index].(destroy := items[index].destroy) == items[index]
  {
    items[index := items[index].(destroy := Some(checked))]
  }

  // ---------------------------------------------------------------------------
  // The form's state
  // ---------------------------------------------------------------------------

  /** The values the form holds; the popups and the switches change its lists in place. */
  class FormState {
    var values: GroupFormFields

    constructor (formData: GroupFormFields)
      ensures values == formData
    {
      values := formData;
    }

    method AddUserToGroup(user: FormItem)
      modifies this
      ensures values == old(values).(users := AddToList(old(values.users), user))
    {
      values := values.(users := AddToList(values.users, user));
    }

    method AddResourceToGroup(resource: FormItem)
      requires resource.ResourceItem?
      modifies this
      ensures values == old(values).(resources := AddResource(old(values.resources), resource))
    {
      values := values.(resources := AddResource(values.resources, resource));
    }

    method ChangePermission(s: PermissionSwitch, index: nat)
      requires index < |values.resources| && values.resources[index].ResourceItem?
      modifies this
      ensures values == old(values).(resources := ChangeResourcePermission(old(values.resources), s, index))
    {
      values := values.(resources := ChangeResourcePermission(values.resources, s, index));
    }

    /** The render's `values.users.sort(...)`, which reorders the form's own users list. */
    method SortUsers(lower: string -> string)
      modifies this
      ensures values == old(values).(users := SortedUsers(old(values.users), lower))
    {
      values := values.(users := SortedUsers(values.users, lower));
    }

    method CheckUserForRemoval(index: nat, checked: bool)
      requires index < |values.users|
      modifies this
      ensures values == old(values).(users := SetDestroy(old(values.users), index, checked))
    {
      values := values.(users := SetDestroy(values.users, index, checked));
    }

    method CheckResourceForRemoval(index: nat, checked: bool)
      requires index < |values.resources|
      modifies this
      ensures values == old(values).(resources := SetDestroy(old(values.resources), index, checked))
    {
      values := values.(resources := SetDestroy(values.resources, index, checked));
    }
  }
}
