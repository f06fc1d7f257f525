/** The tabular data that moves through the pipeline: a frame is a list of column names plus rows. */
module Frames {

  /** A scalar cell. Floating-point values are not modelled; a missing value is `Null`. */
  datatype Value = Null | Int(i: int) | Bool(b: bool) | Str(s: string)

  /** One record, positionally aligned with its frame's columns. */
  type Row = seq<Value>

  datatype Frame = Frame(columns: seq<string>, rows: seq<Row>)

  /** Every row has one cell per column. */
  predicate WellFormed(f: Frame)
  {
    forall r :: r in f.rows ==> |r| == |f.columns|
  }

  /** pandas' `DataFrame.empty`: true when either axis has length zero. */
  predicate IsEmpty(f: Frame)
  {
    |f.columns| == 0 || |f.rows| == 0
  }
}
