/**
 * The inventory table's ordering: the `sortConfig` state that header clicks
 * toggle (`requestSort`) and the sorted copy of the vehicle rows it selects
 * (`sortData`).
 */
module Inventory {
  import opened Wrappers
  import opened Tables
  import opened Numbers
  import opened Join
  import opened Ordering

  datatype Direction = Ascending | Descending

  /** `{ key, direction }`; a missing key means "load order". */
  datatype SortConfig = SortConfig(key: Option<string>, direction: Direction)
  {
    /** `sortConfig.key` is falsy: null or the empty string. */
    predicate NoKey()
    {
      key.None? || key.value == ""
    }
  }

  /** A compared value: a string, a parsed number, or NaN / undefined, which compares false with everything. */
  datatype SortValue = Str(text: string) | Num(number: real) | NaN

  /** JavaScript `x < y` between two values of one sort column. */
  predicate Less(x: SortValue, y: SortValue)
    ensures Less(x, y) ==> x != NaN && y != NaN && x.Str? == y.Str? && x != y
  {
    match (x, y)
    case (Str(a), Str(b)) => LexLess(a, b)
    case (Num(a), Num(b)) => a < b
    case _ => false
  }

  /** The keys whose value is the label resolved by `getVehicleDetails`. */
  predicate IsLabelKey(key: string)
  {
    key == "make" || key == "model" || key == "transmission" || key == "fuelType"
  }

  /** The keys whose value is parsed to a number. */
  predicate IsNumberKey(key: string)
  {
    key == "year" || key == "price" || key == "mileage"
  }

  function OfInt(n: Option<int>): SortValue
  {
    if n.Some? then Num(n.value as real) else NaN
  }

  function OfReal(n: Option<real>): SortValue
  {
    if n.Some? then Num(n.value) else NaN
  }

  /**
   * The value the comparator compares for `row` under `key`: the resolved
   * label of the vehicle with this row's id for make, model, transmission and
   * fuel type; `parseInt(year)`; `parseFloat` of price or mileage; otherwise
   * the raw cell. Where no vehicle has the row's id the source would throw;
   * SortData's requires rules that out, and the model answers NaN.
   */
  function SortKey(data: Dataset, key: string, row: Row): (v: SortValue)
    ensures IsNumberKey(key) ==> !v.Str?
    ensures !IsNumberKey(key) ==> !v.Num?
  {
    if IsLabelKey(key) then
      match GetVehicleDetails(data, Field(row, "id"))
      case None => NaN
      case Some(d) =>
        Str(if key == "make" then d.make
             else if key == "model" then d.model
             else if key == "transmission" then d.transmission
             else d.fuelType)
    else if key == "year" then OfInt(ParseInt(Field(row, "year")))
    else if key == "price" || key == "mileage" then OfReal(ParseFloat(Field(row, key)))
    else if key in row then Str(row[key])
    else NaN
  }

  /** The comparator's verdict that `a` goes ahead of `b` (it returns -1). */
  function RowBefore(data: Dataset, key: string, direction: Direction): (r: (Row, Row) -> bool)
    ensures forall a, b :: r(a, b) ==> SortKey(data, key, a) != NaN && SortKey(data, key, b) != NaN
    ensures forall a, b :: r(a, b) ==> SortKey(data, key, a) != SortKey(data, key, b)
  {
    (a: Row, b: Row) =>
      var x, y := SortKey(data, key, a), SortKey(data, key, b);
      if direction == Ascending then Less(x, y) else Less(y, x)
  }

  /** Descending order is ascending order read backwards. */
  lemma DescendingMirrorsAscending(data: Dataset, key: string)
    ensures forall a, b :: RowBefore(data, key, Descending)(a, b) == RowBefore(data, key, Ascending)(b, a)
  {
  }

  /** The value of each row under `key`, as the comparator sees it. */
  function SortKeyOf(data: Dataset, key: string): Row -> SortValue
  {
    row => SortKey(data, key, row)
  }

  /** Every row the comparator can see has a value that is not NaN or undefined. */
  ghost predicate AllComparable(data: Dataset, key: string, vehicles: seq<Row>)
  {
    forall row :: row in vehicles ==> SortKey(data, key, row) != NaN
  }

  /** Values of one kind, none NaN, are ordered by `<` as a strict weak order. */
  lemma LessIsWeakOrder(x: SortValue, y: SortValue, z: SortValue)
    requires x != NaN && y != NaN && z != NaN
    requires x.Str? == y.Str? && y.Str? == z.Str?
    ensures Less(x, y) ==> !Less(y, x)
    ensures !Less(x, y) && !Less(y, z) ==> !Less(x, z)
  {
    if x.Str? {
      LexLessAsymmetric(x.text, y.text);
      LexNotLessTransitive(x.text, y.text, z.text);
    }
  }

  /** When no value is NaN, the comparator orders the rows consistently. */
  lemma RowBeforeIsWeakOrder(data: Dataset, key: string, direction: Direction, vehicles: seq<Row>)
    requires AllComparable(data, key, vehicles)
    ensures StrictWeakOn(vehicles, RowBefore(data, key, direction))
  {
    var before := RowBefore(data, key, direction);
    forall a, b | a in vehicles && b in vehicles && before(a, b) ensures !before(b, a) {
      var x, y := SortKey(data, key, a), SortKey(data, key, b);
      LessIsWeakOrder(x, y, y);
    }
    forall a, b, c | a in vehicles && b in vehicles && c in vehicles && !before(a, b) && !before(b, c)
      ensures !before(a, c)
    {
      var x, y, z := SortKey(data, key, a), SortKey(data, key, b), SortKey(data, key, c);
      LessIsWeakOrder(x, y, z);
      LessIsWeakOrder(z, y, x);
    }
  }

  /** What `sortData` needs of its rows: with two or more, a label key must resolve every row's id. */
  ghost predicate CanSort(data: Dataset, config: SortConfig, vehicles: seq<Row>)
  {
    !config.NoKey() && IsLabelKey(config.key.value) && |vehicles| >= 2 ==>
      forall row :: row in vehicles ==> GetVehicleDetails(data, Field(row, "id")).Some?
  }

  /**
   * `sortData(vehicles)`: the rows unchanged when the key is null or empty, otherwise
   * a sorted copy. The copy is a permutation of the rows, and when every
   * compared value is a string or a number it is ordered by the key in the
   * chosen direction, rows with equal values keeping their input order
   * (SortDataStable).
   */
  function SortData(data: Dataset, config: SortConfig, vehicles: seq<Row>): (r: seq<Row>)
    requires CanSort(data, config, vehicles)
    ensures config.NoKey() ==> r == vehicles
    ensures multiset(r) == multiset(vehicles)
    ensures !config.NoKey() && AllComparable(data, config.key.value, vehicles) ==>
      SortedBy(r, RowBefore(data, config.key.value, config.direction))
  {
    if config.NoKey() then vehicles
    else
      var key := config.key.value;
      var before := RowBefore(data, key, config.direction);
      var r := SortBy(vehicles, before);
      assert AllComparable(data, key, vehicles) ==> SortedBy(r, before) by {
        if AllComparable(data, key, vehicles) {
          RowBeforeIsWeakOrder(data, key, config.direction, vehicles);
          SortBySorted(vehicles, before);
        }
      }
      r
  }

  /**
   * The sort is stable: when every value is comparable, the rows sharing any
   * one value appear in their input order.
   */
  lemma SortDataStable(data: Dataset, config: SortConfig, vehicles: seq<Row>, v: SortValue)
    requires CanSort(data, config, vehicles) && !config.NoKey()
    requires AllComparable(data, config.key.value, vehicles)
    ensures var keyOf := SortKeyOf(data, config.key.value);
      WithKey(SortData(data, config, vehicles), keyOf, v) == WithKey(vehicles, keyOf, v)
  {
    var keyOf := SortKeyOf(data, config.key.value);
    RowBeforeIsWeakOrder(data, config.key.value, config.direction, vehicles);
    SortKeepsKey(vehicles, RowBefore(data, config.key.value, config.direction), keyOf, v);
  }

  /** Sorting the sorted inventory again with the same configuration changes nothing. */
  lemma SortDataIdempotent(data: Dataset, config: SortConfig, vehicles: seq<Row>)
    requires CanSort(data, config, vehicles)
    requires !config.NoKey() ==> AllComparable(data, config.key.value, vehicles)
    ensures CanSort(data, config, SortData(data, config, vehicles))
    ensures SortData(data, config, SortData(data, config, vehicles)) == SortData(data, config, vehicles)
  {
    var r := SortData(data, config, vehicles);
    assert forall row :: row in r ==> row in vehicles by {
      forall row | row in r ensures row in vehicles {
        assert row in multiset(r);
      }
    }
    if !config.NoKey() {
      RowBeforeIsWeakOrder(data, config.key.value, config.direction, r);
      SortByKeepsSorted(r, RowBefore(data, config.key.value, config.direction));
    }
  }

  /** The table's own call, `sortData(data.vehicles || [])`, always meets SortData's requires. */
  lemma InventoryCanSort(data: Dataset, config: SortConfig)
    ensures CanSort(data, config, if data.vehicles.Some? then data.vehicles.value else [])
  {
  }

  function Flip(d: Direction): Direction
  {
    if d == Ascending then Descending else Ascending
  }

  /** The component state the inventory table reads: the loaded tables and the sort configuration. */
  class Dashboard {
    var data: Dataset
    var sortConfig: SortConfig

    /** Initially no table is loaded and no sort key is chosen. */
    constructor ()
      ensures data == Dataset(None, None, None, None, None, None, None, None, None, None, None)
      ensures sortConfig == SortConfig(None, Ascending)
    {
      data := Dataset(None, None, None, None, None, None, None, None, None, None, None);
      sortConfig := SortConfig(None, Ascending);
    }

    /** `setData(loadedData)`: replaces the tables, keeps the sort configuration. */
    method Load(loaded: Dataset)
      modifies this
      ensures data == loaded && sortConfig == old(sortConfig)
    {
      data := loaded;
    }

    /**
     * `requestSort(key)`: the key becomes `key`; clicking the current key
     * again toggles the direction, any other key starts ascending.
     */
    method RequestSort(key: string)
      modifies this
      ensures sortConfig.key == Some(key)
      ensures old(sortConfig.key) == Some(key) ==> sortConfig.direction == Flip(old(sortConfig.direction))
      ensures old(sortConfig.key) != Some(key) ==> sortConfig.direction == Ascending
      ensures data == old(data)
    {
      var direction := Ascending;
      if sortConfig.key == Some(key) && sortConfig.direction == Ascending {
        direction := Descending;
      }
      sortConfig := SortConfig(Some(key), direction);
    }

    /** The rows the inventory table lists: `sortData(data.vehicles || [])`. */
    method InventoryRows() returns (rows: seq<Row>)
      ensures var all := if data.vehicles.Some? then data.vehicles.value else [];
        && multiset(rows) == multiset(all)
        && (sortConfig.NoKey() ==> rows == all)
        && (!sortConfig.NoKey() && AllComparable(data, sortConfig.key.value, all) ==>
              SortedBy(rows, RowBefore(data, sortConfig.key.value, sortConfig.direction)))
    {
      InventoryCanSort(data, sortConfig);
      rows := SortData(data, sortConfig, if data.vehicles.Some? then data.vehicles.value else []);
    }
  }
}
