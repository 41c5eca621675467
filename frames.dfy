/**
 * The tabular data both loaders read: a pandas DataFrame reduced to its
 * column labels and its rows of cell texts. Cells are held as the text that
 * `str(cell)` gives.
 */
module Frames {
  import opened Common

  /** Column labels and data rows, each cell positionally under its label. */
  datatype Frame = Frame(headers: seq<string>, rows: seq<seq<string>>) {

    /** A DataFrame is rectangular: every row has one cell per column. */
    predicate Valid() {
      forall i :: 0 <= i < |rows| ==> |rows[i]| == |headers|
    }
  }

  /** The position of the first column labelled `name`, if there is one. */
  function ColumnIndex(headers: seq<string>, name: string): (r: Option<nat>)
    ensures r.None? <==> name !in headers
    ensures r.Some? ==> r.value < |headers| && headers[r.value] == name
    ensures r.Some? ==> forall j :: 0 <= j < r.value ==> headers[j] != name
  {
    FirstFrom(headers, name, 0)
  }

  /** The position of the first column labelled `name` at or after position `k`. */
  function FirstFrom(headers: seq<string>, name: string, k: nat): (r: Option<nat>)
    requires k <= |headers|
    ensures r.None? <==> name !in headers[k..]
    ensures r.Some? ==> k <= r.value < |headers| && headers[r.value] == name
    ensures r.Some? ==> forall j :: k <= j < r.value ==> headers[j] != name
    decreases |headers| - k
  {
    if k == |headers| then None
    else if headers[k] == name then Some(k)
    else FirstFrom(headers, name, k + 1)
  }

  /** The keys of every question's options: the values the radio buttons report. */
  const Labels: set<string> := {"option A", "option B", "option C", "option D"}

  /** The options dictionary both loaders build: column A under label "option A", and so on. */
  function Options(a: string, b: string, c: string, d: string): (m: map<string, string>)
    ensures m.Keys == Labels
  {
    map["option A" := a, "option B" := b, "option C" := c, "option D" := d]
  }

  /** `row[name]` for a column that exists: the cell under the first column of that label. */
  function Field(f: Frame, i: nat, name: string): (r: string)
    requires f.Valid() && i < |f.rows| && name in f.headers
    ensures exists j :: 0 <= j < |f.headers| && f.headers[j] == name && name !in f.headers[..j] && r == f.rows[i][j]
  {
    var j := ColumnIndex(f.headers, name).value;
    f.rows[i][j]
  }
}
