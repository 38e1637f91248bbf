/**
 * The page button bar: the permission of the current page enables or
 * disables the New, Save and Delete buttons in place; hidden buttons are
 * never shown, and nothing is shown before a permission has been found.
 */
module ButtonBar {
  import opened Wrappers
  import opened Strings
  import opened Entities
  import opened Seqs
  import opened AuthContext
  import Authorization

  const SearchTitle: string := "Search"
  const NewTitle: string := "New"
  const SaveTitle: string := "Save"
  const DeleteTitle: string := "Delete"
  const BackTitle: string := "Back"

  /** A button; a missing `hide` is false. Colour, type and action are not modelled. */
  datatype ButtonElement = ButtonElement(title: string, disabled: bool, hide: bool)

  /** The `switch` on the title: only New, Save and Delete are governed by the permission. */
  function Protect(b: ButtonElement, p: ResourcePermission, pathname: string): (r: ButtonElement)
    ensures r.title == b.title && r.hide == b.hide
    ensures b.title == NewTitle ==> (r.disabled <==> !p.write)
    ensures b.title == SaveTitle && EndsWith(pathname, "new") ==> (r.disabled <==> !p.write)
    ensures b.title == SaveTitle && !EndsWith(pathname, "new") ==> (r.disabled <==> !p.update)
    ensures b.title == DeleteTitle ==> (r.disabled <==> !p.del)
    ensures b.title != NewTitle && b.title != SaveTitle && b.title != DeleteTitle ==> r == b
  {
    if b.title == NewTitle then b.(disabled := !p.write)
    else if b.title == SaveTitle then b.(disabled := if EndsWith(pathname, "new") then !p.write else !p.update)
    else if b.title == DeleteTitle then b.(disabled := !p.del)
    else b
  }

  /**
   * A governed button is enabled exactly when the server would authorise the
   * request it sends: New and Save on a creation page post, Save elsewhere
   * puts, Delete deletes.
   */
  lemma ProtectAgreesWithServer(b: ButtonElement, p: ResourcePermission, pathname: string)
    ensures var r := Protect(b, p, pathname);
      && (b.title == NewTitle ==> (!r.disabled <==> Authorization.Decide(Some(p), "POST")))
      && (b.title == SaveTitle ==>
            (!r.disabled <==> Authorization.Decide(Some(p), if EndsWith(pathname, "new") then "POST" else "PUT")))
      && (b.title == DeleteTitle ==> (!r.disabled <==> Authorization.Decide(Some(p), "DELETE")))
  {
  }

  /** Applying the same permission twice changes nothing more. */
  lemma ProtectIdempotent(b: ButtonElement, p: ResourcePermission, pathname: string)
    ensures Protect(Protect(b, p, pathname), p, pathname) == Protect(b, p, pathname)
  {
  }

  predicate Shown(b: ButtonElement) {
    !b.hide
  }

  /** What the bar renders: nothing before a protected list exists, then the buttons without `hide`, in order. */
  function Rendered(protectedButtons: Option<seq<ButtonElement>>): (r: seq<ButtonElement>)
    ensures protectedButtons.None? ==> r == []
    ensures protectedButtons.Some? ==> forall b :: b in r <==> b in protectedButtons.value && !b.hide
  {
    match protectedButtons
    case None => []
    case Some(s) => Filter(s, Shown)
  }

  /** The rendered buttons of two lists in a row are those of each list, in the same order. */
  lemma RenderedKeepsOrder(a: seq<ButtonElement>, b: seq<ButtonElement>)
    ensures Rendered(Some(a + b)) == Rendered(Some(a)) + Rendered(Some(b))
  {
    FilterConcat(a, b, Shown);
  }

  /** The component's state. */
  class Bar {
    var resourcePermissions: Option<ResourcePermission>
    var protectedButtons: Option<seq<ButtonElement>>

    constructor ()
      ensures resourcePermissions.None? && protectedButtons.None?
    {
      resourcePermissions := None;
      protectedButtons := None;
    }

    /** The first effect: the permission of the current page, from the authentication context. */
    method LoadPermissions(ctx: Context, pathname: string)
      modifies this
      ensures resourcePermissions == LookupPermissions(ctx.loginData, pathname)
      ensures protectedButtons == old(protectedButtons)
    {
      resourcePermissions := ctx.GetResourcePermissions(pathname);
    }

    /**
     * The second effect: with a permission, every button of the caller's list
     * is updated in place and the list becomes the protected one; without one,
     * nothing changes.
     */
    method ProtectButtons(buttons: array<ButtonElement>, pathname: string)
      modifies this, buttons
      ensures resourcePermissions == old(resourcePermissions)
      ensures resourcePermissions.None? ==> buttons[..] == old(buttons[..]) && protectedButtons == old(protectedButtons)
      ensures resourcePermissions.Some? ==>
        && (forall i :: 0 <= i < buttons.Length ==>
              buttons[i] == Protect(old(buttons[i]), resourcePermissions.value, pathname))
        && protectedButtons == Some(buttons[..])
    {
      if resourcePermissions.Some? {
        var p := resourcePermissions.value;
        var i := 0;
        while i < buttons.Length
          modifies buttons
          invariant 0 <= i <= buttons.Length
          invariant forall j :: 0 <= j < i ==> buttons[j] == Protect(old(buttons[j]), p, pathname)
          invariant forall j :: i <= j < buttons.Length ==> buttons[j] == old(buttons[j])
        {
          buttons[i] := Protect(buttons[i], p, pathname);
          i := i + 1;
        }
        protectedButtons := Some(buttons[..]);
      }
    }
  }
}
