/** Option, the stock wrapper for a value that may be missing (SQL NULL, a row not found). */
module Wrappers {

  datatype Option<+T> = None | Some(value: T)

  /** The three outcomes of SQLAlchemy's `scalar_one_or_none()`: no row, exactly one row,
      or several rows (which raises `MultipleResultsFound`). */
  datatype Unique<+T> = NoMatch | Match(value: T) | Ambiguous
}
