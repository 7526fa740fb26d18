/**
 * Context-menu elements, reduced to the ids and labels the menu builders choose.
 * A label is held in the field `title` (`label` is a Dafny keyword); a section's
 * label, `heading`, is optional.
 */
module ContextMenu {
  import opened Nullables

  datatype MenuElement =
    | Item(id: string, title: string)
    | Section(id: string, heading: Option<string>)
    | Submenu(id: string, title: string, items: seq<MenuElement>)

  /** The ids of a list of elements, in order. */
  function ElementIds(items: seq<MenuElement>): seq<string> {
    seq(|items|, i requires 0 <= i < |items| => items[i].id)
  }
}
