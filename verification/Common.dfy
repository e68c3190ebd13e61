/** What several models share: optional values and the bounds of transaction ids. */
module Common {
  datatype Option<+T> = None | Some(value: T)

  /** dbtuple::MIN_TID and MAX_TID; the latter marks a tentative insert. */
  const MIN_TID: nat := 0
  const MAX_TID: nat := 0xFFFF_FFFF_FFFF_FFFF
}
