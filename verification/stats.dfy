/**
 * The dashboard's statistics: counts per resolved make, fuel type,
 * transmission, trim and colour; the ten most common models; counts per
 * document type; and counts per price range.
 */
module Stats {
  import opened Wrappers
  import opened Tables
  import opened Numbers
  import opened Grouping
  import opened Ordering

  /** The name each row is grouped under: what its `fk` resolves to in `dim`, else "Unknown". */
  function GroupLabels(rows: seq<Row>, dim: Option<seq<Row>>, fk: string): (r: seq<string>)
    ensures |r| == |rows|
    ensures forall i :: 0 <= i < |r| ==> r[i] != ""
    ensures forall i :: 0 <= i < |r| ==> r[i] == "Unknown" || NameOf(dim, Field(rows[i], fk)) == Some(r[i])
    ensures forall i :: 0 <= i < |r| ==> var n := NameOf(dim, Field(rows[i], fk));
      n.Some? && n.value != "" ==> r[i] == n.value
    ensures dim.None? ==> forall i :: 0 <= i < |r| ==> r[i] == "Unknown"
  {
    seq(|rows|, i requires 0 <= i < |rows| => Label(dim, Field(rows[i], fk), "Unknown"))
  }

  /** A `{name, count}` statistic over `rows` grouped by the dimension `fk` points into. */
  ghost predicate DimensionCounts(es: seq<Entry>, rows: seq<Row>, dim: Option<seq<Row>>, fk: string)
  {
    var ls := GroupLabels(rows, dim, fk);
    && CountsOf(es, ls)
    && Labels(es) == Dedup(ls)
    && forall e :: e in es ==> e.name != ""
  }

  /**
   * The body every dimension statistic shares: an empty list when either
   * table is absent, otherwise the fold over the rows' resolved names.
   */
  method CountByDimension(rows: Option<seq<Row>>, dim: Option<seq<Row>>, fk: string) returns (es: seq<Entry>)
    ensures rows.None? || dim.None? ==> es == []
    ensures rows.Some? && dim.Some? ==> DimensionCounts(es, rows.value, dim, fk)
  {
    if rows.None? || dim.None? {
      return [];
    }
    var ls := GroupLabels(rows.value, dim, fk);
    es := CountBy(ls);
    forall e | e in es ensures e.name != "" {
      assert e.name in Labels(es);
    }
  }

  /** `getMakeStats`: vehicles per make. */
  method MakeStats(data: Dataset) returns (es: seq<Entry>)
    ensures data.vehicles.None? || data.makes.None? ==> es == []
    ensures data.vehicles.Some? && data.makes.Some? ==>
      DimensionCounts(es, data.vehicles.value, data.makes, "make_id")
  {
    es := CountByDimension(data.vehicles, data.makes, "make_id");
  }

  /** `getFuelTypeStats`: vehicles per fuel type. */
  method FuelTypeStats(data: Dataset) returns (es: seq<Entry>)
    ensures data.vehicles.None? || data.fuelTypes.None? ==> es == []
    ensures data.vehicles.Some? && data.fuelTypes.Some? ==>
      DimensionCounts(es, data.vehicles.value, data.fuelTypes, "fuel_type_id")
  {
    es := CountByDimension(data.vehicles, data.fuelTypes, "fuel_type_id");
  }

  /** `getTransmissionStats`: vehicles per transmission type. */
  method TransmissionStats(data: Dataset) returns (es: seq<Entry>)
    ensures data.vehicles.None? || data.transmissionTypes.None? ==> es == []
    ensures data.vehicles.Some? && data.transmissionTypes.Some? ==>
      DimensionCounts(es, data.vehicles.value, data.transmissionTypes, "transmission_type_id")
  {
    es := CountByDimension(data.vehicles, data.transmissionTypes, "transmission_type_id");
  }

  /** `getTrimStats`: vehicles per trim. */
  method TrimStats(data: Dataset) returns (es: seq<Entry>)
    ensures data.vehicles.None? || data.trims.None? ==> es == []
    ensures data.vehicles.Some? && data.trims.Some? ==>
      DimensionCounts(es, data.vehicles.value, data.trims, "trim_id")
  {
    es := CountByDimension(data.vehicles, data.trims, "trim_id");
  }

  /** `getColorStats`: colour join rows (not vehicles) per colour. */
  method ColorStats(data: Dataset) returns (es: seq<Entry>)
    ensures data.colors.None? || data.vehicleColors.None? ==> es == []
    ensures data.colors.Some? && data.vehicleColors.Some? ==>
      DimensionCounts(es, data.vehicleColors.value, data.colors, "color_id")
  {
    es := CountByDimension(data.vehicleColors, data.colors, "color_id");
  }

  /** A row whose key does not resolve, or resolves to an empty name, is counted under "Unknown". */
  lemma UnresolvedCountedAsUnknown(es: seq<Entry>, rows: seq<Row>, dim: Option<seq<Row>>, fk: string, i: nat)
    requires DimensionCounts(es, rows, dim, fk)
    requires i < |rows| && OrElse(NameOf(dim, Field(rows[i], fk)), "") == ""
    ensures exists e :: e in es && e.name == "Unknown" && e.count >= 1
  {
    var ls := GroupLabels(rows, dim, fk);
    assert ls[i] == "Unknown" && ls[i] in ls;
    var k :| 0 <= k < |es| && Labels(es)[k] == "Unknown";
    assert es[k] in es;
  }

  /**
   * `getModelStats`: vehicles per model, ranked by descending count (models
   * with equal counts in first-encounter order) and cut to the first ten.
   */
  method ModelStats(data: Dataset) returns (es: seq<Entry>)
    ensures data.vehicles.None? || data.models.None? ==> es == []
    ensures data.vehicles.Some? && data.models.Some? ==>
      var ls := GroupLabels(data.vehicles.value, data.models, "model_id");
      && |es| == (if |Dedup(ls)| <= 10 then |Dedup(ls)| else 10)
      && NonIncreasing(es)
      && Distinct(Labels(es))
      && (forall e :: e in es ==> e.name in ls && e.count == multiset(ls)[e.name])
      && (forall x :: x in ls && x !in Labels(es) ==> forall e :: e in es ==> multiset(ls)[x] <= e.count)
      && (forall c :: WithKey(es, CountOf, c) <= WithKey(GroupCounts(ls), CountOf, c))
  {
    if data.vehicles.None? || data.models.None? {
      return [];
    }
    var ls := GroupLabels(data.vehicles.value, data.models, "model_id");
    var all := CountBy(ls);
    es := Take(RankByCount(all), 10);
    TopKeepsLargest(all, ls, 10);
    RankKeepsTies(all);
    TakeKeepsTies(RankByCount(all), 10);
    assert |all| == |Labels(all)|;
    forall e | e in es ensures e.name in ls {
      assert e in all;
      var k :| 0 <= k < |all| && all[k] == e;
      assert Labels(all)[k] == e.name;
    }
  }

  /** The name a document is grouped under: its `document_type`, or "Unknown" when missing or empty. */
  function DocumentLabels(docs: seq<Row>): (r: seq<string>)
    ensures |r| == |docs|
    ensures forall i :: 0 <= i < |r| ==> r[i] != ""
    ensures forall i :: 0 <= i < |r| ==> r[i] == "Unknown" || Field(docs[i], "document_type") == Some(r[i])
    ensures forall i :: 0 <= i < |r| ==> var t := Field(docs[i], "document_type");
      t.Some? && t.value != "" ==> r[i] == t.value
  {
    seq(|docs|, i requires 0 <= i < |docs| => OrElse(Field(docs[i], "document_type"), "Unknown"))
  }

  /** `getDocumentStats`: documents per type, ranked by descending count, ties in first-encounter order. */
  method DocumentStats(data: Dataset) returns (es: seq<Entry>)
    ensures data.vehicleDocuments.None? ==> es == []
    ensures data.vehicleDocuments.Some? ==>
      && CountsOf(es, DocumentLabels(data.vehicleDocuments.value))
      && NonIncreasing(es)
      && (forall c :: WithKey(es, CountOf, c) == WithKey(GroupCounts(DocumentLabels(data.vehicleDocuments.value)), CountOf, c))
      && forall e :: e in es ==> e.name != ""
  {
    if data.vehicleDocuments.None? {
      return [];
    }
    var ls := DocumentLabels(data.vehicleDocuments.value);
    var all := CountBy(ls);
    es := RankByCount(all);
    PermutationKeepsCountsOf(all, es, ls);
    RankKeepsTies(all);
    forall e | e in es ensures e.name != "" {
      assert e.name in Labels(es);
    }
  }

  /** The five price ranges, in the order the statistic lists them. */
  const PriceRanges: seq<string> := ["0-10k", "10k-20k", "20k-30k", "30k-40k", "40k+"]

  /** The inclusive upper bounds of the first four ranges. */
  const Bounds: seq<real> := [10000.0, 20000.0, 30000.0, 40000.0]

  /** `price <= bound`: false when the price did not parse (NaN). */
  predicate AtMost(price: Option<real>, bound: real)
  {
    price.Some? && price.value <= bound
  }

  /** The range a price falls in: the number of bounds it exceeds (NaN exceeds all four). */
  function Bucket(price: Option<real>): (r: nat)
    ensures r < |PriceRanges|
    ensures forall k :: 0 <= k < |Bounds| ==> (r <= k <==> AtMost(price, Bounds[k]))
  {
    (if AtMost(price, 10000.0) then 0 else 1) + (if AtMost(price, 20000.0) then 0 else 1)
      + (if AtMost(price, 30000.0) then 0 else 1) + (if AtMost(price, 40000.0) then 0 else 1)
  }

  /**
   * A price is in range `k` or an earlier one exactly when it is at most the
   * k-th bound: the bounds are upper-inclusive, and NaN lands in "40k+".
   */
  lemma BucketBounds(price: Option<real>)
    ensures price.None? ==> Bucket(price) == 4
    ensures Bucket(Some(10000.0)) == 0 && Bucket(Some(10000.01)) == 1 && Bucket(Some(40000.01)) == 4
  {
  }

  /**
   * Prices as the CSV holds them: "10000" is in "0-10k", and an empty or
   * non-numeric cell is in "40k+".
   */
  lemma PriceCellExamples()
    ensures Bucket(ParseFloat(Some("10000"))) == 0
    ensures Bucket(ParseFloat(Some(""))) == 4 && Bucket(ParseFloat(Some("n/a"))) == 4
  {
    TenThousand();
    assert NoDigits("n/a");
  }

  /** The comparison chain of `getPriceStats` picks range `Bucket(price)`. */
  lemma ChainPicksBucket(price: Option<real>)
    ensures AtMost(price, 10000.0) ==> Bucket(price) == 0
    ensures !AtMost(price, 10000.0) && AtMost(price, 20000.0) ==> Bucket(price) == 1
    ensures !AtMost(price, 20000.0) && AtMost(price, 30000.0) ==> Bucket(price) == 2
    ensures !AtMost(price, 30000.0) && AtMost(price, 40000.0) ==> Bucket(price) == 3
    ensures !AtMost(price, 40000.0) ==> Bucket(price) == 4
  {
  }

  /** The range each vehicle's parsed `price` falls in. */
  function PriceBuckets(vehicles: seq<Row>): (bs: seq<nat>)
    ensures |bs| == |vehicles| && forall i :: 0 <= i < |bs| ==> bs[i] < 5
    ensures forall i :: 0 <= i < |bs| ==> bs[i] == Bucket(ParseFloat(Field(vehicles[i], "price")))
  {
    if vehicles == [] then []
    else
      var last := vehicles[|vehicles| - 1];
      PriceBuckets(vehicles[..|vehicles| - 1]) + [Bucket(ParseFloat(Field(last, "price")))]
  }

  lemma PriceBucketsStep(vehicles: seq<Row>, i: nat)
    requires i < |vehicles|
    ensures PriceBuckets(vehicles[..i + 1]) == PriceBuckets(vehicles[..i]) + [Bucket(ParseFloat(Field(vehicles[i], "price")))]
  {
    assert vehicles[..i + 1][..i] == vehicles[..i];
  }


  lemma {:induction false} BucketsAddUp(bs: seq<nat>)
    requires forall i :: 0 <= i < |bs| ==> bs[i] < 5
    ensures multiset(bs)[0] + multiset(bs)[1] + multiset(bs)[2] + multiset(bs)[3] + multiset(bs)[4] == |bs|
  {
    if bs != [] {
      assert bs == [bs[0]] + bs[1..];
      BucketsAddUp(bs[1..]);
    }
  }

  /** `Object.entries(priceRanges)`: the five ranges in order with their counters. */
  function RangeEntries(counts: seq<nat>): (es: seq<Entry>)
    requires |counts| == 5
    ensures Labels(es) == PriceRanges
    ensures |es| == 5 && forall b :: 0 <= b < 5 ==> es[b].count == counts[b]
  {
    [Entry(PriceRanges[0], counts[0]), Entry(PriceRanges[1], counts[1]), Entry(PriceRanges[2], counts[2]),
     Entry(PriceRanges[3], counts[3]), Entry(PriceRanges[4], counts[4])]
  }

  lemma RangeEntriesTotal(counts: seq<nat>)
    requires |counts| == 5
    ensures Total(RangeEntries(counts)) == counts[0] + counts[1] + counts[2] + counts[3] + counts[4]
  {
    var es := RangeEntries(counts);
    assert Total(es[4..]) == counts[4] by { assert es[4..][1..] == []; }
    assert Total(es[3..]) == counts[3] + Total(es[4..]) by { assert es[3..][1..] == es[4..]; }
    assert Total(es[2..]) == counts[2] + Total(es[3..]) by { assert es[2..][1..] == es[3..]; }
    assert Total(es[1..]) == counts[1] + Total(es[2..]) by { assert es[1..][1..] == es[2..]; }
  }

  /** Counting the next vehicle's range keeps each counter equal to its range's tally so far. */
  lemma Tally(bs: seq<nat>, x: nat, counts: seq<nat>, counts': seq<nat>)
    requires x < 5 && |counts| == 5
    requires forall b :: 0 <= b < 5 ==> counts[b] == multiset(bs)[b]
    requires counts' == counts[x := counts[x] + 1]
    ensures |counts'| == 5
    ensures forall b :: 0 <= b < 5 ==> counts'[b] == multiset(bs + [x])[b]
  {
  }


  /**
   * One iteration of `getPriceStats`: the upper-inclusive comparison chain
   * increments the counter of the first range whose bound the price does not
   * exceed, which is range `Bucket(price)`.
   */
  method CountPrice(counts: seq<nat>, price: Option<real>) returns (counts': seq<nat>)
    requires |counts| == 5
    ensures counts' == counts[Bucket(price) := counts[Bucket(price)] + 1]
  {
    ChainPicksBucket(price);
    if AtMost(price, 10000.0) {
      counts' := counts[0 := counts[0] + 1];
    } else if AtMost(price, 20000.0) {
      counts' := counts[1 := counts[1] + 1];
    } else if AtMost(price, 30000.0) {
      counts' := counts[2 := counts[2] + 1];
    } else if AtMost(price, 40000.0) {
      counts' := counts[3 := counts[3] + 1];
    } else {
      counts' := counts[4 := counts[4] + 1];
    }
  }

  /** The loop of `getPriceStats`: counter `b` ends as the number of vehicles in range `b`. */
  method CountRanges(vehicles: seq<Row>) returns (counts: seq<nat>)
    ensures |counts| == 5
    ensures forall b :: 0 <= b < 5 ==> counts[b] == multiset(PriceBuckets(vehicles))[b]
  {
    counts := [0, 0, 0, 0, 0];
    for i := 0 to |vehicles|
      invariant |counts| == 5
      invariant forall b :: 0 <= b < 5 ==> counts[b] == multiset(PriceBuckets(vehicles[..i]))[b]
    {
      var price := ParseFloat(Field(vehicles[i], "price"));
      ghost var before := counts;
      counts := CountPrice(counts, price);
      PriceBucketsStep(vehicles, i);
      Tally(PriceBuckets(vehicles[..i]), Bucket(price), before, counts);
    }
    assert vehicles[..|vehicles|] == vehicles;
  }

  /**
   * `getPriceStats`: an empty list when the vehicles table is absent;
   * otherwise the five ranges in order, each with the number of vehicles whose
   * price falls in it.
   */
  method PriceStats(data: Dataset) returns (es: seq<Entry>)
    ensures data.vehicles.None? ==> es == []
    ensures data.vehicles.Some? ==>
      var bs := PriceBuckets(data.vehicles.value);
      && Labels(es) == PriceRanges
      && (forall b :: 0 <= b < |es| ==> es[b].count == multiset(bs)[b])
      && Total(es) == |data.vehicles.value|
  {
    if data.vehicles.None? {
      return [];
    }
    var vehicles := data.vehicles.value;
    var counts := CountRanges(vehicles);
    es := RangeEntries(counts);
    BucketsAddUp(PriceBuckets(vehicles));
    RangeEntriesTotal(counts);
  }
}
