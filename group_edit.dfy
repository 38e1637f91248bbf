/**
 * The group edit screen: loading a group tags its rows for update, and
 * before a submit the rows checked for removal are either dropped (when
 * they were never saved) or tagged for deletion.
 */
module GroupEdit {
  import opened Wrappers
  import opened Seqs
  import opened GroupMainForm

  /** The form before any group is loaded. */
  const InitialForm: GroupFormFields := GroupFormFields("", "", false, Some(""), [], [])

  // ---------------------------------------------------------------------------
  // loadHandler
  // ---------------------------------------------------------------------------

  /** Every fetched row is tagged `u`; nothing else about it changes. */
  function TagForUpdate(items: seq<FormItem>): (r: seq<FormItem>)
    ensures |r| == |items|
    ensures forall i :: 0 <= i < |r| ==>
      r[i].operation == Some(Update) && r[i].(operation := items[i].operation) == items[i]
  {
    seq(|items|, i requires 0 <= i < |items| => items[i].(operation := Some(Update)))
  }

  /** The form a fetched group is shown in. */
  function Loaded(group: GroupFormFields): (f: GroupFormFields)
    ensures f.(users := group.users, resources := group.resources) == group
    ensures |f.users| == |group.users| && |f.resources| == |group.resources|
    ensures forall x :: x in f.users ==> x.operation == Some(Update)
    ensures forall x :: x in f.resources ==> x.operation == Some(Update)
    ensures f.users == TagForUpdate(group.users) && f.resources == TagForUpdate(group.resources)
  {
    group.(users := TagForUpdate(group.users), resources := TagForUpdate(group.resources))
  }

  // ---------------------------------------------------------------------------
  // prepareDataBeforeSubmit
  // ---------------------------------------------------------------------------

  /** A row added in this session and then checked for removal: it never reached the server. */
  predicate Discarded(x: FormItem) {
    x.operation == Some(Create) && x.destroy == Some(true)
  }

  predicate Kept(x: FormItem) {
    !Discarded(x)
  }

  /** A row checked for removal is tagged `d`; any other row is left as it is. */
  function MarkDeleted(x: FormItem): (y: FormItem)
    ensures x.destroy == Some(true) ==> y.operation == Some(Delete)
    ensures x.destroy != Some(true) ==> y == x
    ensures y.(operation := x.operation) == x
  {
    if x.destroy == Some(true) then x.(operation := Some(Delete)) else x
  }

  function MarkAllDeleted(items: seq<FormItem>): (r: seq<FormItem>)
    ensures |r| == |items| && forall i :: 0 <= i < |r| ==> r[i] == MarkDeleted(items[i])
  {
    seq(|items|, i requires 0 <= i < |items| => MarkDeleted(items[i]))
  }

  /** One list as prepareDataBeforeSubmit leaves it: discarded rows dropped, then `d` tags set. */
  function Prepared(items: seq<FormItem>): (r: seq<FormItem>)
    ensures |items| == 0 ==> r == items
    ensures |r| <= |items|
  {
    if |items| > 0 then MarkAllDeleted(Filter(items, Kept)) else items
  }

  /** The surviving rows are the kept rows, each with `d` set when checked for removal. */
  lemma PreparedMembers(items: seq<FormItem>, x: FormItem)
    ensures x in Prepared(items) <==> exists y :: y in items && Kept(y) && x == MarkDeleted(y)
  {
    if |items| > 0 {
      var kept := Filter(items, Kept);
      var r := Prepared(items);
      if x in r {
        var i :| 0 <= i < |r| && r[i] == x;
        assert kept[i] in kept;
      }
      if exists y :: y in items && Kept(y) && x == MarkDeleted(y) {
        var y :| y in items && Kept(y) && x == MarkDeleted(y);
        var i :| 0 <= i < |kept| && kept[i] == y;
        assert r[i] == x;
      }
    }
  }

  /** After preparing, every row checked for removal is tagged `d` and no discarded row is left. */
  lemma PreparedTags(items: seq<FormItem>)
    ensures forall x :: x in Prepared(items) && x.destroy == Some(true) ==> x.operation == Some(Delete)
    ensures forall x :: x in Prepared(items) ==> Kept(x)
  {
    forall x | x in Prepared(items)
      ensures Kept(x) && (x.destroy == Some(true) ==> x.operation == Some(Delete))
    {
      PreparedMembers(items, x);
    }
  }

  /** One row alone: dropped when discarded, otherwise kept with its `d` tag set if checked. */
  lemma PreparedSingle(x: FormItem)
    ensures Prepared([x]) == if Kept(x) then [MarkDeleted(x)] else []
  {
    assert [x][..0] == [];
  }

  lemma MarkAllDeletedConcat(a: seq<FormItem>, b: seq<FormItem>)
    ensures MarkAllDeleted(a + b) == MarkAllDeleted(a) + MarkAllDeleted(b)
  {
  }

  /** The relative order of the surviving rows is kept: preparing splits over concatenation. */
  lemma PreparedConcat(a: seq<FormItem>, b: seq<FormItem>)
    ensures Prepared(a + b) == Prepared(a) + Prepared(b)
  {
    if |a| == 0 {
      assert a + b == b;
    } else if |b| == 0 {
      assert a + b == a;
    } else {
      FilterConcat(a, b, Kept);
      MarkAllDeletedConcat(Filter(a, Kept), Filter(b, Kept));
    }
  }

  /** Preparing a prepared list changes nothing. */
  lemma PreparedIdempotent(items: seq<FormItem>)
    ensures Prepared(Prepared(items)) == Prepared(items)
  {
    var r := Prepared(items);
    if |r| > 0 {
      PreparedTags(items);
      assert forall i :: 0 <= i < |r| ==> r[i] in r;
      FilterAll(r, Kept);
      assert MarkAllDeleted(r) == r;
    }
  }

  /** The pass over one list, as the `filter` then `map` visit it. */
  method PrepareItems(items: seq<FormItem>) returns (r: seq<FormItem>)
    ensures r == Prepared(items)
  {
    if |items| == 0 {
      return items;
    }
    r := [];
    var i := 0;
    while i < |items|
      invariant 0 <= i <= |items|
      invariant r == Prepared(items[..i])
    {
      var x := items[i];
      assert items[..i + 1] == items[..i] + [x];
      PreparedConcat(items[..i], [x]);
      PreparedSingle(x);
      if Kept(x) {
        r := r + [MarkDeleted(x)];
      }
      i := i + 1;
    }
    assert items[..|items|] == items;
  }

  /** prepareDataBeforeSubmit: both lists prepared, every other field as submitted. */
  method PrepareDataBeforeSubmit(formFields: GroupFormFields) returns (newForm: GroupFormFields)
    ensures newForm == formFields.(users := Prepared(formFields.users), resources := Prepared(formFields.resources))
  {
    newForm := formFields;
    var users := PrepareItems(newForm.users);
    newForm := newForm.(users := users);
    var resources := PrepareItems(newForm.resources);
    newForm := newForm.(resources := resources);
  }

  // ---------------------------------------------------------------------------
  // The screen's state
  // ---------------------------------------------------------------------------

  class EditScreen {
    var pageForm: GroupFormFields
    var hideDeleteButton: bool

    constructor ()
      ensures pageForm == InitialForm && hideDeleteButton
    {
      pageForm := InitialForm;
      hideDeleteButton := true;
    }

    /** loadHandler, given the group the server returned. */
    method LoadHandler(group: GroupFormFields)
      modifies this
      ensures pageForm == Loaded(group) && !hideDeleteButton
    {
      var nUsers := TagForUpdate(group.users);
      var nResources := TagForUpdate(group.resources);
      pageForm := group.(users := nUsers, resources := nResources);
      hideDeleteButton := false;
    }

    /** newHandler and, once the server has deleted the group, deleteHandler: back to the empty form. */
    method NewHandler()
      modifies this
      ensures pageForm == InitialForm && hideDeleteButton
    {
      pageForm := InitialForm;
      hideDeleteButton := true;
    }
  }
}
