/**
 * The dataset store: the eleven parsed CSV tables and the first-match and
 * filter lookups the dashboard performs on them.
 */
module Tables {
  import opened Wrappers
  import opened Sequences

  /** A parsed CSV row: column name to cell text. */
  type Row = map<string, string>

  /** `row[column]`: the cell, or undefined (`None`) when the row has no such column. */
  function Field(row: Row, column: string): Option<string>
  {
    if column in row then Some(row[column]) else None
  }

  /**
   * JavaScript `v || fallback` on a cell or lookup result: undefined and the
   * empty string are falsy, every other string is kept.
   */
  function OrElse(v: Option<string>, fallback: string): string
  {
    if v.Some? && v.value != "" then v.value else fallback
  }

  /**
   * The dashboard's `data` state. Each table is absent (`None`) until it has
   * been loaded; the initial state has every table absent.
   */
  datatype Dataset = Dataset(
    vehicles: Option<seq<Row>>,
    makes: Option<seq<Row>>,
    models: Option<seq<Row>>,
    colors: Option<seq<Row>>,
    features: Option<seq<Row>>,
    fuelTypes: Option<seq<Row>>,
    transmissionTypes: Option<seq<Row>>,
    trims: Option<seq<Row>>,
    vehicleDocuments: Option<seq<Row>>,
    vehicleColors: Option<seq<Row>>,
    vehicleFeatures: Option<seq<Row>>)

  /** `rows[i]` is the row `rows.find(r => r[column] === value)` returns. */
  ghost predicate FirstMatch(rows: seq<Row>, column: string, value: Option<string>, i: int)
  {
    && 0 <= i < |rows|
    && Field(rows[i], column) == value
    && forall j :: 0 <= j < i ==> Field(rows[j], column) != value
  }

  /** The index of the first row whose `column` equals `value`, as `Array.prototype.find` scans. */
  function FindIndex(rows: seq<Row>, column: string, value: Option<string>): (r: Option<nat>)
    ensures r.Some? ==> FirstMatch(rows, column, value, r.value)
    ensures r.None? <==> forall j :: 0 <= j < |rows| ==> Field(rows[j], column) != value
    decreases |rows|
  {
    if rows == [] then None
    else if Field(rows[0], column) == value then Some(0)
    else match FindIndex(rows[1..], column, value)
      case None => None
      case Some(k) => Some(k + 1)
  }

  /** `table?.find(r => r[column] === value)`: undefined when the table is absent or nothing matches. */
  function Find(table: Option<seq<Row>>, column: string, value: Option<string>): (r: Option<Row>)
    ensures r.Some? <==> table.Some? && FindIndex(table.value, column, value).Some?
    ensures r.Some? ==> exists i :: FirstMatch(table.value, column, value, i) && r.value == table.value[i]
  {
    match table
    case None => None
    case Some(rows) =>
      match FindIndex(rows, column, value)
      case None => None
      case Some(i) => Some(rows[i])
  }

  /** `table?.find(r => r.id === id)?.name`: the name of the row the id resolves to, if any. */
  function NameOf(table: Option<seq<Row>>, id: Option<string>): Option<string>
  {
    match Find(table, "id", id)
    case None => None
    case Some(row) => Field(row, "name")
  }

  /**
   * `table?.find(r => r.id === id)?.name || unknown`: the name of the first row
   * with this id, or the fixed label when the table is absent, the id does not
   * resolve, or the name is missing or empty.
   */
  function Label(table: Option<seq<Row>>, id: Option<string>, unknown: string): (r: string)
    ensures unknown != "" ==> r != ""
    ensures table.None? ==> r == unknown
    ensures table.Some? && FindIndex(table.value, "id", id).None? ==> r == unknown
    ensures forall i | table.Some? && FirstMatch(table.value, "id", id, i) ::
      r == OrElse(Field(table.value[i], "name"), unknown)
    ensures r == unknown || exists i | table.Some? && FirstMatch(table.value, "id", id, i) ::
      Field(table.value[i], "name") == Some(r)
  {
    OrElse(NameOf(table, id), unknown)
  }

  /** `rows.filter(r => r[column] === value)`: the matching rows, in table order. */
  function Filter(rows: seq<Row>, column: string, value: Option<string>): (r: seq<Row>)
    ensures |r| <= |rows|
    ensures forall x :: x in r <==> x in rows && Field(x, column) == value
    ensures forall x :: Field(x, column) == value ==> multiset(r)[x] == multiset(rows)[x]
    ensures (forall j :: 0 <= j < |rows| ==> Field(rows[j], column) == value) ==> r == rows
  {
    if rows == [] then []
    else
      assert rows == [rows[0]] + rows[1..];
      var rest := Filter(rows[1..], column, value);
      if Field(rows[0], column) == value then [rows[0]] + rest else rest
  }

  /** A single row is kept exactly when its column holds the value. */
  function Keep(x: Row, column: string, value: Option<string>): seq<Row>
  {
    if Field(x, column) == value then [x] else []
  }

  /** Filtering a table looks at its first row, then at the rest. */
  lemma FilterCons(x: Row, t: seq<Row>, column: string, value: Option<string>)
    ensures Filter([x] + t, column, value) == Keep(x, column, value) + Filter(t, column, value)
  {
    assert ([x] + t)[0] == x && ([x] + t)[1..] == t;
  }

  /** Filtering works row by row: it distributes over concatenation, so the kept rows stay in table order. */
  lemma {:induction false} FilterAppend(a: seq<Row>, b: seq<Row>, column: string, value: Option<string>)
    ensures Filter(a + b, column, value) == Filter(a, column, value) + Filter(b, column, value)
    decreases |a|
  {
    if a == [] {
      assert a + b == b;
    } else {
      FilterAppend(a[1..], b, column, value);
      FilterAppendStep(a[0], a[1..], b, column, value);
      SplitHead(a, b);
    }
  }

  /** The inductive step of FilterAppend: putting one row in front of both sides. */
  lemma FilterAppendStep(x: Row, t: seq<Row>, b: seq<Row>, column: string, value: Option<string>)
    requires Filter(t + b, column, value) == Filter(t, column, value) + Filter(b, column, value)
    ensures Filter([x] + (t + b), column, value) == Filter([x] + t, column, value) + Filter(b, column, value)
  {
    FilterCons(x, t, column, value);
    FilterCons(x, t + b, column, value);
    Regroup(Keep(x, column, value), Filter(t, column, value), Filter(b, column, value));
  }

  /** A table of one row keeps it exactly when its column holds the value. */
  lemma FilterOne(x: Row, column: string, value: Option<string>)
    ensures Filter([x], column, value) == Keep(x, column, value)
  {
    FilterCons(x, [], column, value);
  }
}
