/** Event rows as the scripts see them once the tab-separated reader is done. */
module Rows {
  import opened Wrappers

  /** One parsed event line, cut down to the fields the scripts read. A
      missing (NaN) cell is None. `text` is the row's printed form `str(row)`,
      which the full-row filters search; it is taken as given. */
  datatype Row = Row(
    sqlDate: Option<string>,
    avgTone: Option<real>,
    actor1: Option<string>,
    actor2: Option<string>,
    text: string)

  /** The two columns kept for aggregation, `['SQLDATE', 'AvgTone']`. */
  datatype DateTone = DateTone(sqlDate: Option<string>, avgTone: Option<real>)

  function Project(r: Row): DateTone {
    DateTone(r.sqlDate, r.avgTone)
  }

  /** A directory listing's file contents: None when the reader raises. */
  type Reader = string -> Option<seq<Row>>
}
