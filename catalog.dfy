/**
 * A checklist item as the application keeps it in `checklist_items`: a dictionary loaded
 * either from the CKL (every key present, every value a string, `row_index` an int) or from
 * the legacy JSON list (any key may be missing or `null`).
 */
module Catalog {
  import opened Wrappers

  /** One dictionary entry: missing key, JSON `null`, or a value. */
  datatype Field<+T> = Absent | Null | Present(value: T)

  datatype Item = Item(
    section: Field<string>,
    controlId: Field<string>,
    title: Field<string>,
    rationale: Field<string>,
    fixText: Field<string>,
    status: Field<string>,
    comment: Field<string>,
    rowIndex: Field<int>)

  /** `item.get(key, default)`: the default only for a missing key; `null` reads as None. */
  function Get<T>(f: Field<T>, default: T): (r: Option<T>)
    ensures f.Absent? ==> r == Some(default)
    ensures f.Null? ==> r == None
    ensures f.Present? ==> r == Some(f.value)
  {
    match f
    case Absent => Some(default)
    case Null => None
    case Present(v) => Some(v)
  }

  /** `item.get(key)` with no default: None for a missing key as well as for `null`. */
  function Lookup<T>(f: Field<T>): (r: Option<T>)
    ensures r.Some? <==> f.Present?
    ensures r.Some? ==> r.value == f.value
  {
    if f.Present? then Some(f.value) else None
  }

  /** An item as the CKL loader builds it: every key present. */
  function CklItem(section: string, controlId: string, title: string, rationale: string,
                   fixText: string, status: string, comment: string, rowIndex: int): Item
  {
    Item(Present(section), Present(controlId), Present(title), Present(rationale),
         Present(fixText), Present(status), Present(comment), Present(rowIndex))
  }
}
