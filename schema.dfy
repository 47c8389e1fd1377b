/** The column check performed on an uploaded table before any row is judged. */
module Schema {

  const Item: string := "항목명"
  const Value: string := "측정값"
  const Lower: string := "기준하한"
  const Upper: string := "기준상한"

  /** The required column names, in the order the check tries them. */
  const ExpectedColumns: seq<string> := [Item, Value, Lower, Upper]

  /** The message shown, before the script stops, when the check fails. */
  const ColumnError: string := "❌ Column names are incorrect. Please refer to the sample file."

  /** `all(col in columns for col in expected)`: scans `expected` from the
      front and stops at the first name missing from `columns`. */
  function AllPresent(expected: seq<string>, columns: seq<string>): (ok: bool)
    ensures ok <==> forall k :: 0 <= k < |expected| ==> expected[k] in columns
  {
    if expected == [] then true
    else if expected[0] in columns then AllPresent(expected[1..], columns)
    else false
  }

  /** The table's header passes the check. */
  function HasExpectedColumns(columns: seq<string>): (ok: bool)
    ensures ok <==> (Item in columns && Value in columns && Lower in columns && Upper in columns)
  {
    assert forall k :: 0 <= k < |ExpectedColumns| ==>
      ExpectedColumns[k] == Item || ExpectedColumns[k] == Value ||
      ExpectedColumns[k] == Lower || ExpectedColumns[k] == Upper;
    assert ExpectedColumns[0] == Item && ExpectedColumns[1] == Value;
    assert ExpectedColumns[2] == Lower && ExpectedColumns[3] == Upper;
    AllPresent(ExpectedColumns, columns)
  }

  /** Every column of `columns` also occurs in `wider`. */
  ghost predicate Covers(wider: seq<string>, columns: seq<string>)
  {
    forall c :: c in columns ==> c in wider
  }

  /** Extra columns, and any reordering or repetition of the columns, never
      turn an accepted header into a rejected one. */
  lemma SupersetAccepted(columns: seq<string>, wider: seq<string>)
    requires HasExpectedColumns(columns) && Covers(wider, columns)
    ensures HasExpectedColumns(wider)
  {
  }

  lemma ExtraColumnsAccepted(columns: seq<string>, extra: seq<string>)
    requires HasExpectedColumns(columns)
    ensures HasExpectedColumns(columns + extra)
    ensures HasExpectedColumns(extra + columns)
  {
    SupersetAccepted(columns, columns + extra);
    SupersetAccepted(columns, extra + columns);
  }

  /** Missing any one of the four names rejects the table. */
  lemma MissingColumnRejected(columns: seq<string>, k: nat)
    requires k < |ExpectedColumns| && ExpectedColumns[k] !in columns
    ensures !HasExpectedColumns(columns)
  {
  }

  /** The four names alone are accepted, in their own order or reversed. */
  lemma ExactHeaderAccepted()
    ensures HasExpectedColumns(ExpectedColumns)
    ensures HasExpectedColumns([Upper, Lower, Value, Item])
  {
  }
}
