/**
 * The denormalised view of one vehicle (`getVehicleDetails`): the vehicle row,
 * its five resolved dimension labels, its colour and feature names through the
 * two join tables, and its document rows.
 */
module Join {
  import opened Wrappers
  import opened Tables
  import opened Sequences

  datatype VehicleDetails = VehicleDetails(
    vehicle: Row,
    make: string,
    model: string,
    trim: string,
    fuelType: string,
    transmission: string,
    colors: seq<string>,
    features: seq<string>,
    documents: seq<Row>)

  /**
   * For each join row, in order, the name its `fk` column resolves to in `dim`;
   * rows that do not resolve, or resolve to a missing or empty name, are
   * dropped (`.map(r => dim?.find(...)?.name).filter(Boolean)`).
   */
  function ResolveNames(rows: seq<Row>, dim: Option<seq<Row>>, fk: string): (r: seq<string>)
    ensures |r| <= |rows|
    ensures dim.None? ==> r == []
    ensures forall k :: 0 <= k < |r| ==>
      r[k] != "" && exists jr :: jr in rows && NameOf(dim, Field(jr, fk)) == Some(r[k])
    ensures (forall jr :: jr in rows ==> OrElse(NameOf(dim, Field(jr, fk)), "") != "") ==> |r| == |rows|
  {
    if rows == [] then []
    else
      var rest := ResolveNames(rows[1..], dim, fk);
      assert forall jr :: jr in rows[1..] ==> jr in rows;
      match NameOf(dim, Field(rows[0], fk))
      case Some(n) => if n != "" then [n] + rest else rest
      case None => rest
  }

  /** The name one join row contributes: present and non-empty, or nothing. */
  function NameFrom(jr: Row, dim: Option<seq<Row>>, fk: string): seq<string>
  {
    var n := NameOf(dim, Field(jr, fk));
    if n.Some? && n.value != "" then [n.value] else []
  }

  /** Resolving a list of join rows looks at the first row, then at the rest. */
  lemma ResolveNamesCons(jr: Row, t: seq<Row>, dim: Option<seq<Row>>, fk: string)
    ensures ResolveNames([jr] + t, dim, fk) == NameFrom(jr, dim, fk) + ResolveNames(t, dim, fk)
  {
    assert ([jr] + t)[0] == jr && ([jr] + t)[1..] == t;
  }

  /** Names are resolved row by row: the result of a concatenation is the concatenation of the results. */
  lemma {:induction false} ResolveNamesAppend(a: seq<Row>, b: seq<Row>, dim: Option<seq<Row>>, fk: string)
    ensures ResolveNames(a + b, dim, fk) == ResolveNames(a, dim, fk) + ResolveNames(b, dim, fk)
    decreases |a|
  {
    if a == [] {
      assert a + b == b;
    } else {
      ResolveNamesAppend(a[1..], b, dim, fk);
      ResolveNamesAppendStep(a[0], a[1..], b, dim, fk);
      SplitHead(a, b);
    }
  }

  /** The inductive step of ResolveNamesAppend: putting one join row in front of both sides. */
  lemma ResolveNamesAppendStep(jr: Row, t: seq<Row>, b: seq<Row>, dim: Option<seq<Row>>, fk: string)
    requires ResolveNames(t + b, dim, fk) == ResolveNames(t, dim, fk) + ResolveNames(b, dim, fk)
    ensures ResolveNames([jr] + (t + b), dim, fk) == ResolveNames([jr] + t, dim, fk) + ResolveNames(b, dim, fk)
  {
    ResolveNamesCons(jr, t, dim, fk);
    ResolveNamesCons(jr, t + b, dim, fk);
    Regroup(NameFrom(jr, dim, fk), ResolveNames(t, dim, fk), ResolveNames(b, dim, fk));
  }

  /** A single join row contributes its name when that name is present and non-empty, and nothing otherwise. */
  lemma ResolveNamesOne(jr: Row, dim: Option<seq<Row>>, fk: string)
    ensures ResolveNames([jr], dim, fk) == NameFrom(jr, dim, fk)
  {
    ResolveNamesCons(jr, [], dim, fk);
  }

  /**
   * `join?.filter(r => r.vehicle_id === vehicleId)?.map(...)?.filter(Boolean) || []`:
   * the vehicle's colour (or feature) names, one per join row that resolves.
   */
  function JoinedNames(join: Option<seq<Row>>, dim: Option<seq<Row>>, fk: string, vehicleId: Option<string>)
    : (r: seq<string>)
    ensures join.None? || dim.None? ==> r == []
    ensures join.Some? ==> |r| <= |Filter(join.value, "vehicle_id", vehicleId)|
    ensures forall k :: 0 <= k < |r| ==> r[k] != "" && exists jr ::
      && join.Some? && jr in join.value && Field(jr, "vehicle_id") == vehicleId
      && NameOf(dim, Field(jr, fk)) == Some(r[k])
  {
    match join
    case None => []
    case Some(rows) => ResolveNames(Filter(rows, "vehicle_id", vehicleId), dim, fk)
  }

  /** The names of a vehicle over a concatenated join table are those of each part, in order. */
  lemma JoinedNamesAppend(a: seq<Row>, b: seq<Row>, dim: Option<seq<Row>>, fk: string, vehicleId: Option<string>)
    ensures JoinedNames(Some(a + b), dim, fk, vehicleId)
      == JoinedNames(Some(a), dim, fk, vehicleId) + JoinedNames(Some(b), dim, fk, vehicleId)
  {
    FilterAppend(a, b, "vehicle_id", vehicleId);
    ResolveNamesAppend(Filter(a, "vehicle_id", vehicleId), Filter(b, "vehicle_id", vehicleId), dim, fk);
  }

  /** A single join row contributes its resolved name when it belongs to the vehicle, and nothing otherwise. */
  lemma JoinedNamesOne(jr: Row, dim: Option<seq<Row>>, fk: string, vehicleId: Option<string>)
    ensures JoinedNames(Some([jr]), dim, fk, vehicleId)
      == if Field(jr, "vehicle_id") == vehicleId then NameFrom(jr, dim, fk) else []
  {
    FilterOne(jr, "vehicle_id", vehicleId);
    ResolveNamesOne(jr, dim, fk);
  }

  /** `vehicleDocuments?.filter(doc => doc.vehicle_id === vehicleId) || []`. */
  function DocumentsOf(docs: Option<seq<Row>>, vehicleId: Option<string>): (r: seq<Row>)
    ensures docs.None? ==> r == []
    ensures docs.Some? ==> forall d :: d in r <==> d in docs.value && Field(d, "vehicle_id") == vehicleId
    ensures docs.Some? ==> forall d :: Field(d, "vehicle_id") == vehicleId ==>
      multiset(r)[d] == multiset(docs.value)[d]
  {
    match docs
    case None => []
    case Some(rows) => Filter(rows, "vehicle_id", vehicleId)
  }

  /** The documents of a vehicle over a concatenated table are those of each part, in table order. */
  lemma DocumentsOfAppend(a: seq<Row>, b: seq<Row>, vehicleId: Option<string>)
    ensures DocumentsOf(Some(a + b), vehicleId) == DocumentsOf(Some(a), vehicleId) + DocumentsOf(Some(b), vehicleId)
  {
    FilterAppend(a, b, "vehicle_id", vehicleId);
  }

  /**
   * `getVehicleDetails(vehicleId)`: null when the vehicles table is absent or
   * no row has this id; otherwise the view built from the first row with it.
   */
  function GetVehicleDetails(data: Dataset, vehicleId: Option<string>): (r: Option<VehicleDetails>)
    ensures data.vehicles.None? ==> r.None?
    ensures data.vehicles.Some? ==>
      (r.None? <==> forall j :: 0 <= j < |data.vehicles.value| ==> Field(data.vehicles.value[j], "id") != vehicleId)
    ensures r.Some? ==> exists i | FirstMatch(data.vehicles.value, "id", vehicleId, i) ::
      r.value.vehicle == data.vehicles.value[i]
    ensures r.Some? ==> var d := r.value;
      && d.make != "" && d.model != "" && d.trim != "" && d.fuelType != "" && d.transmission != ""
      && d.make == Label(data.makes, Field(d.vehicle, "make_id"), "Unknown Make")
      && d.model == Label(data.models, Field(d.vehicle, "model_id"), "Unknown Model")
      && d.trim == Label(data.trims, Field(d.vehicle, "trim_id"), "Unknown Trim")
      && d.fuelType == Label(data.fuelTypes, Field(d.vehicle, "fuel_type_id"), "Unknown Fuel Type")
      && d.transmission == Label(data.transmissionTypes, Field(d.vehicle, "transmission_type_id"), "Unknown Transmission")
      && d.colors == JoinedNames(data.vehicleColors, data.colors, "color_id", vehicleId)
      && d.features == JoinedNames(data.vehicleFeatures, data.features, "feature_id", vehicleId)
      && d.documents == DocumentsOf(data.vehicleDocuments, vehicleId)
  {
    match Find(data.vehicles, "id", vehicleId)
    case None => None
    case Some(v) =>
      Some(VehicleDetails(
        v,
        Label(data.makes, Field(v, "make_id"), "Unknown Make"),
        Label(data.models, Field(v, "model_id"), "Unknown Model"),
        Label(data.trims, Field(v, "trim_id"), "Unknown Trim"),
        Label(data.fuelTypes, Field(v, "fuel_type_id"), "Unknown Fuel Type"),
        Label(data.transmissionTypes, Field(v, "transmission_type_id"), "Unknown Transmission"),
        JoinedNames(data.vehicleColors, data.colors, "color_id", vehicleId),
        JoinedNames(data.vehicleFeatures, data.features, "feature_id", vehicleId),
        DocumentsOf(data.vehicleDocuments, vehicleId)))
  }

  /** A value of the merged record: a string cell, a list of names, or document rows. */
  datatype Value = Text(text: string) | Names(names: seq<string>) | Documents(rows: seq<Row>)

  /** The fields the view synthesises; they overwrite vehicle columns of the same name. */
  const Synthesized: set<string> :=
    {"make", "model", "trim", "fuelType", "transmission", "colors", "features", "documents"}

  /** `{ ...vehicle, make, model, trim, fuelType, transmission, colors, features, documents }`. */
  function Record(d: VehicleDetails): (r: map<string, Value>)
    ensures r.Keys == d.vehicle.Keys + Synthesized
    ensures forall k :: k in d.vehicle && k !in Synthesized ==> r[k] == Text(d.vehicle[k])
    ensures r["make"] == Text(d.make) && r["model"] == Text(d.model) && r["trim"] == Text(d.trim)
    ensures r["fuelType"] == Text(d.fuelType) && r["transmission"] == Text(d.transmission)
    ensures r["colors"] == Names(d.colors) && r["features"] == Names(d.features)
    ensures r["documents"] == Documents(d.documents)
  {
    (map k | k in d.vehicle :: Text(d.vehicle[k])) + map[
      "make" := Text(d.make), "model" := Text(d.model), "trim" := Text(d.trim),
      "fuelType" := Text(d.fuelType), "transmission" := Text(d.transmission),
      "colors" := Names(d.colors), "features" := Names(d.features),
      "documents" := Documents(d.documents)]
  }
}
