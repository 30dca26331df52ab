/** The row-action menu and confirmation dialog shared by the admin tables:
    opening the menu on a row records the row's id, closing it forgets the
    id, and a menu entry closes the menu and opens a dialog for its action. */
module MenuFlow {
  import opened Wrappers

  /** The anchored menu and the row it was opened for. */
  datatype Menu = Menu(open: bool, selected: Option<string>)

  /** A confirmation dialog and the action it will confirm. */
  datatype Dialog<A> = Dialog(open: bool, action: Option<A>)

  const Closed := Menu(false, None)

  function NoDialog<A>(): (r: Dialog<A>)
    ensures !r.open && r.action.None?
  {
    Dialog(false, None)
  }

  /** `handleMenuOpen`: the menu opens on the row. */
  function MenuOpen(m: Menu, id: string): (r: Menu)
    ensures r.open && r.selected == Some(id)
  {
    Menu(true, Some(id))
  }

  /** `handleMenuClose`: the menu closes and the selection is dropped. */
  function MenuClose(m: Menu): (r: Menu)
    ensures !r.open && r.selected.None?
  {
    Closed
  }

  /** A menu entry as written: close the menu through `handleMenuClose`,
      then open the dialog for the action. */
  function Click<A>(m: Menu, d: Dialog<A>, action: A): (r: (Menu, Dialog<A>))
    ensures !r.0.open && r.0.selected.None?
    ensures r.1.open && r.1.action == Some(action)
  {
    (MenuClose(m), Dialog(true, Some(action)))
  }

  /** A menu entry as evidently intended: the menu closes but the row it was
      opened for stays selected for the dialog. */
  function ClickKeepingSelection<A>(m: Menu, d: Dialog<A>, action: A): (r: (Menu, Dialog<A>))
    ensures !r.0.open && r.0.selected == m.selected
    ensures r.1.open && r.1.action == Some(action)
  {
    (m.(open := false), Dialog(true, Some(action)))
  }

  /** The guard of every confirm handler: a row is selected (a non-empty id)
      and the dialog has an action. */
  predicate Armed<A>(m: Menu, d: Dialog<A>) {
    Present(m.selected) && d.action.Some?
  }

  /** Whatever state the menu was in, a menu entry as written leaves nothing
      for the confirm handler to act on. */
  lemma ClickDisarms<A>(m: Menu, d: Dialog<A>, id: string, action: A)
    ensures !Armed(Click(MenuOpen(m, id), d, action).0, Click(MenuOpen(m, id), d, action).1)
  {
  }

  /** With the selection kept, opening the menu on a row and picking an entry
      arms the confirm handler for that row. */
  lemma ClickKeepingSelectionArms<A>(m: Menu, d: Dialog<A>, id: string, action: A)
    requires id != ""
    ensures var r := ClickKeepingSelection(MenuOpen(m, id), d, action);
            Armed(r.0, r.1) && r.0.selected == Some(id)
  {
  }
}
