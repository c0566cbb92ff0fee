/** A missing cell of a table (pandas NaN / NaT / None) is `None`; a present
    value `v` is `Some(v)`.  Comparing two cells with `==` follows Dafny's
    structural equality; the pipelines write out explicitly where pandas
    treats a null differently (a null never equals a literal, never lies in
    a band, and is dropped by `isin`). */
module Wrappers {

  datatype Option<+T> = None | Some(value: T)

  /** A calendar date as produced by parsing a `DD-MM-YYYY` cell. */
  datatype Date = Date(year: int, month: int, day: int)
}
