/**
 * Column-level transformations applied to a frame before it is loaded
 * (src/etl/transformer.py). Both return a new frame; the input is a value and
 * cannot be changed, which is what `df.copy()` guarantees in the source.
 */
module Transformer {
  import opened Frames
  import opened Wrappers
  import opened PyText

  predicate IsUpper(c: char)
  {
    'A' <= c <= 'Z'
  }

  /** A name with no ASCII upper-case letter. */
  predicate IsLowercase(s: string)
  {
    forall i :: 0 <= i < |s| ==> !IsUpper(s[i])
  }

  /** `str.lower` restricted to ASCII letters. */
  function LowerChar(c: char): (r: char)
    ensures !IsUpper(r)
    ensures IsUpper(c) ==> r as int == c as int + ('a' as int - 'A' as int)
    ensures !IsUpper(c) ==> r == c
  {
    if IsUpper(c) then (c as int - 'A' as int + 'a' as int) as char else c
  }

  function Lower(s: string): (r: string)
    ensures |r| == |s| && IsLowercase(r)
    ensures forall i :: 0 <= i < |s| && !IsUpper(s[i]) ==> r[i] == s[i]
    ensures IsLowercase(s) ==> r == s
  {
    seq(|s|, i requires 0 <= i < |s| => LowerChar(s[i]))
  }

  /** `clean_column_names`: every column name is replaced by its lower-case form. */
  function CleanColumnNames(f: Frame): (r: Frame)
    ensures |r.columns| == |f.columns|
    ensures forall i :: 0 <= i < |f.columns| ==> r.columns[i] == Lower(f.columns[i])
    ensures forall c :: c in r.columns ==> IsLowercase(c)
    ensures r.rows == f.rows
    ensures WellFormed(f) ==> WellFormed(r)
  {
    Frame(seq(|f.columns|, i requires 0 <= i < |f.columns| => Lower(f.columns[i])), f.rows)
  }

  /** Cleaning twice is the same as cleaning once. */
  lemma CleanColumnNamesIdempotent(f: Frame)
    ensures CleanColumnNames(CleanColumnNames(f)) == CleanColumnNames(f)
  {
    var once := CleanColumnNames(f);
    var twice := CleanColumnNames(once);
    assert twice.columns == once.columns by {
      forall i | 0 <= i < |once.columns|
        ensures twice.columns[i] == once.columns[i]
      {
        assert IsLowercase(once.columns[i]);
      }
    }
  }

  const ActiveFlag: string := "activeflag"

  /** `astype(int)` converts to a 64-bit integer: a value outside this range raises `OverflowError`. */
  predicate IsInt64(i: int)
  {
    -0x8000_0000_0000_0000 <= i < 0x8000_0000_0000_0000
  }

  /**
   * The cell has an integer `astype(int)` gives: an integer in the 64-bit range,
   * a boolean, or a string that `int()` reads as a number in that range; a
   * missing value has none.
   */
  predicate HasIntValue(v: Value)
  {
    (v.Int? && IsInt64(v.i)) || v.Bool? || (v.Str? && ParseInt(v.s).Some? && IsInt64(ParseInt(v.s).value))
  }

  function IntValue(v: Value): int
    requires HasIntValue(v)
  {
    match v
    case Int(i) => i
    case Bool(b) => if b then 1 else 0
    case Str(s) => ParseInt(s).value
  }

  /**
   * A flag stored as the text of a number casts as the number does: "0" to 0,
   * any other numeral below 2^63 to itself, and a larger one raises.
   */
  lemma NumeralFlagCasts(n: nat)
    ensures n < 0x8000_0000_0000_0000 ==> HasIntValue(Str(NatToString(n))) && IntValue(Str(NatToString(n))) == n
    ensures n >= 0x8000_0000_0000_0000 ==> !HasIntValue(Str(NatToString(n)))
  {
    ParseNatToString(n);
  }

  /** Position `i` holds an `activeflag` cell. */
  predicate IsFlagColumn(columns: seq<string>, i: int)
  {
    0 <= i < |columns| && columns[i] == ActiveFlag
  }

  /** Every `activeflag` cell can be cast to an integer. */
  predicate Castable(f: Frame)
  {
    forall j, i :: 0 <= j < |f.rows| && 0 <= i < |f.rows[j]| && IsFlagColumn(f.columns, i) ==>
      HasIntValue(f.rows[j][i])
  }

  function ConvertRow(columns: seq<string>, row: Row): Row
    requires forall i :: 0 <= i < |row| && IsFlagColumn(columns, i) ==> HasIntValue(row[i])
  {
    seq(|row|, i requires 0 <= i < |row| =>
      if IsFlagColumn(columns, i) then Bool(IntValue(row[i]) != 0) else row[i])
  }

  /**
   * `transform_completion_data`: when the frame has an `activeflag` column, each
   * of its cells becomes a boolean that is true exactly when the cell's integer
   * value is nonzero; a cell that is not an integer makes the cast raise.
   */
  function TransformCompletionData(f: Frame): (r: Result<Frame>)
    ensures ActiveFlag !in f.columns ==> r == Ok(f)
    ensures r.Raised? <==> ActiveFlag in f.columns && !Castable(f)
    ensures r.Raised? ==> r.exc == CastError
    ensures r.Ok? ==> r.value.columns == f.columns && |r.value.rows| == |f.rows|
    ensures r.Ok? ==> forall j :: 0 <= j < |f.rows| ==> |r.value.rows[j]| == |f.rows[j]|
    ensures r.Ok? ==> forall j, i :: 0 <= j < |f.rows| && 0 <= i < |f.rows[j]| ==>
      if IsFlagColumn(f.columns, i)
      then HasIntValue(f.rows[j][i]) && r.value.rows[j][i] == Bool(IntValue(f.rows[j][i]) != 0)
      else r.value.rows[j][i] == f.rows[j][i]
    ensures r.Ok? ==> (WellFormed(f) <==> WellFormed(r.value))
  {
    if ActiveFlag !in f.columns then Ok(f)
    else if !Castable(f) then Raised(CastError)
    else Ok(Frame(f.columns, seq(|f.rows|, j requires 0 <= j < |f.rows| => ConvertRow(f.columns, f.rows[j]))))
  }

  /** Applying the transformation to its own output changes nothing. */
  lemma TransformCompletionDataIdempotent(f: Frame)
    requires TransformCompletionData(f).Ok?
    ensures TransformCompletionData(TransformCompletionData(f).value) == TransformCompletionData(f)
  {
    var g := TransformCompletionData(f).value;
    if ActiveFlag in f.columns {
      assert Castable(g);
      var h := TransformCompletionData(g).value;
      assert |h.rows| == |g.rows|;
      forall j | 0 <= j < |g.rows|
        ensures h.rows[j] == g.rows[j]
      {
        assert |h.rows[j]| == |g.rows[j]|;
        forall i | 0 <= i < |g.rows[j]|
          ensures h.rows[j][i] == g.rows[j][i]
        {
        }
      }
      assert h.rows == g.rows;
    }
  }
}
