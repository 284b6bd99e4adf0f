/**
  * The layer-info file helpers of unblending_io.cpp: a layer is written as
  * a JSON object with the keys "mode", "color_model" (holding
  * "primary_color" and "color_variance") and "comp_op", and read back by
  * the field mapping of import_layer_infos. JSON values are the small
  * datatype Json below, with the accessors of json11 that the helpers use.
  *
  * The file holds the covariance of a colour model while a LayerInfo holds
  * its inverse; matrix inversion is not part of this model, so the records
  * written and read here carry the covariance itself (LayerRecord).
  */
module UnblendingIo {
  import opened LinearAlgebra
  import opened Wrappers
  import opened CompOps
  import opened BlendModes

  /** A json11::Json value. An object maps keys to values, as json11's std::map does. */
  datatype Json =
    | JNull
    | JBool(b: bool)
    | JNumber(n: real)
    | JString(s: string)
    | JArray(items: seq<Json>)
    | JObject(fields: map<string, Json>)

  /** Json::array_items: the items of an array, and no items for anything else. */
  function ArrayItems(j: Json): seq<Json>
  {
    if j.JArray? then j.items else []
  }

  /** Json::number_value: the number, and 0 for anything else. */
  function NumberValue(j: Json): real
  {
    if j.JNumber? then j.n else 0.0
  }

  /** Json::string_value: the string, and "" for anything else. */
  function StringValue(j: Json): string
  {
    if j.JString? then j.s else ""
  }

  /** Json::operator[](key): the value under key, and null when it is absent or j is not an object. */
  function Get(j: Json, key: string): Json
  {
    if j.JObject? && key in j.fields then j.fields[key] else JNull
  }

  // ---------------------------------------------------------------------
  // Matrices and vectors
  // ---------------------------------------------------------------------

  /** The nine numbers interpret_mat3_as_json writes: entry m(col, row) at position 3 col + row. */
  function Mat3Json(m: Mat3): (items: seq<Json>)
    ensures |items| == 9
  {
    seq(9, k requires 0 <= k < 9 => JNumber(m.At(k / 3, k % 3)))
  }

  /** interpret_mat3_as_json: the outer loop runs over col, the inner over row. */
  method Mat3AsJson(m: Mat3) returns (items: seq<Json>)
    ensures |items| == 9
    ensures forall col, row :: 0 <= col < 3 && 0 <= row < 3 ==> items[3 * col + row] == JNumber(m.At(col, row))
    ensures items == Mat3Json(m)
  {
    items := [];
    for col := 0 to 3
      invariant |items| == 3 * col
      invariant forall c, r :: 0 <= c < col && 0 <= r < 3 ==> items[3 * c + r] == JNumber(m.At(c, r))
    {
      for row := 0 to 3
        invariant |items| == 3 * col + row
        invariant forall c, r :: 0 <= c < col && 0 <= r < 3 ==> items[3 * c + r] == JNumber(m.At(c, r))
        invariant forall r :: 0 <= r < row ==> items[3 * col + r] == JNumber(m.At(col, r))
      {
        items := items + [JNumber(m.At(col, row))];
      }
    }
    forall k | 0 <= k < 9
      ensures items[k] == Mat3Json(m)[k]
    {
      assert k == 3 * (k / 3) + k % 3;
    }
  }

  /** The matrix interpret_json_as_mat3 reads: entry (row, col) from position 3 col + row. */
  function Mat3FromItems(items: seq<Json>): (m: Mat3)
    requires 9 <= |items|
    ensures forall row, col :: 0 <= row < 3 && 0 <= col < 3 ==> m.At(row, col) == NumberValue(items[3 * col + row])
  {
    Mat3(Vec3(NumberValue(items[0]), NumberValue(items[3]), NumberValue(items[6])),
         Vec3(NumberValue(items[1]), NumberValue(items[4]), NumberValue(items[7])),
         Vec3(NumberValue(items[2]), NumberValue(items[5]), NumberValue(items[8])))
  }

  /** A 3 x 3 buffer filled entry by entry, as coeffRef does. */
  method JsonAsMat3(j: Json) returns (m: Mat3)
    requires 9 <= |ArrayItems(j)|
    ensures forall row, col :: 0 <= row < 3 && 0 <= col < 3 ==> m.At(row, col) == NumberValue(ArrayItems(j)[3 * col + row])
    ensures m == Mat3FromItems(ArrayItems(j))
  {
    var items := ArrayItems(j);
    var mat := new real[3, 3];
    for col := 0 to 3
      invariant forall r, c :: 0 <= r < 3 && 0 <= c < col ==> mat[r, c] == NumberValue(items[3 * c + r])
    {
      for row := 0 to 3
        invariant forall r, c :: 0 <= r < 3 && 0 <= c < col ==> mat[r, c] == NumberValue(items[3 * c + r])
        invariant forall r :: 0 <= r < row ==> mat[r, col] == NumberValue(items[3 * col + r])
      {
        mat[row, col] := NumberValue(items[3 * col + row]);
      }
    }
    m := Mat3(Vec3(mat[0, 0], mat[0, 1], mat[0, 2]), Vec3(mat[1, 0], mat[1, 1], mat[1, 2]),
              Vec3(mat[2, 0], mat[2, 1], mat[2, 2]));
  }

  /** Writing a matrix and reading it back gives its transpose. */
  lemma Mat3RoundTrip(m: Mat3)
    ensures Mat3FromItems(Mat3Json(m)) == m.Transpose()
    ensures Symmetric(m) ==> Mat3FromItems(Mat3Json(m)) == m
  {
  }

  /** The numbers interpret_vecx_as_json writes, one per entry, in order. */
  function VecxJson(x: seq<real>): (items: seq<Json>)
    ensures |items| == |x|
  {
    seq(|x|, i requires 0 <= i < |x| => JNumber(x[i]))
  }

  /** interpret_vecx_as_json: push_back of every entry in order. */
  method VecxAsJson(x: seq<real>) returns (items: seq<Json>)
    ensures |items| == |x| && forall i :: 0 <= i < |x| ==> items[i] == JNumber(x[i])
    ensures items == VecxJson(x)
  {
    items := [];
    for i := 0 to |x|
      invariant items == VecxJson(x[..i])
    {
      items := items + [JNumber(x[i])];
    }
    assert x[..|x|] == x;
  }

  /**
    * interpret_json_as_vec3 reads array items 0, 1 and 2. With fewer items
    * the library reads out of range; that is None here.
    */
  function JsonAsVec3(j: Json): (r: Option<Vec3>)
    ensures r.Some? <==> 3 <= |ArrayItems(j)|
    ensures r.Some? ==> r.value.ToSeq() == [NumberValue(ArrayItems(j)[0]), NumberValue(ArrayItems(j)[1]),
                                            NumberValue(ArrayItems(j)[2])]
  {
    var items := ArrayItems(j);
    if |items| < 3 then None
    else Some(Vec3(NumberValue(items[0]), NumberValue(items[1]), NumberValue(items[2])))
  }

  /** A vector written as an array reads back unchanged. */
  lemma Vec3RoundTrip(v: Vec3)
    ensures JsonAsVec3(JArray(VecxJson(v.ToSeq()))) == Some(v)
  {
  }

  // ---------------------------------------------------------------------
  // The covariance
  // ---------------------------------------------------------------------

  /** (sigma / sigma(0, 0)).isIdentity(), compared exactly: sigma is sigma(0, 0) times the identity. */
  predicate IsUniform(sigma: Mat3)
  {
    sigma == Identity3().Scale(sigma.At(0, 0))
  }

  /** interpret_variance_as_json: a uniform covariance as its scale, any other as nine numbers. */
  function VarianceAsJson(sigma: Mat3): (j: Json)
    requires sigma.At(0, 0) != 0.0
    ensures j.JNumber? <==> IsUniform(sigma)
    ensures j.JNumber? ==> j.n == sigma.At(0, 0)
    ensures j.JArray? ==> |j.items| == 9
  {
    if IsUniform(sigma) then JNumber(sigma.At(0, 0)) else JArray(Mat3Json(sigma))
  }

  /** interpret_json_as_variance: a number k stands for k times the identity; anything but nine numbers is a parse error. */
  function JsonAsVariance(j: Json): (r: Result<Mat3>)
    ensures r.Success? <==> j.JNumber? || (j.JArray? && |j.items| == 9)
    ensures j.JNumber? ==> r == Success(Identity3().Scale(j.n))
  {
    if j.JNumber? then Success(Identity3().Scale(j.n))
    else if j.JArray? && |j.items| == 9 then Success(Mat3FromItems(j.items))
    else Failure("LayerInfo parse error")
  }

  /** A symmetric covariance with a nonzero first entry survives the round trip, whichever form it is written in. */
  lemma VarianceRoundTrip(sigma: Mat3)
    requires sigma.At(0, 0) != 0.0
    ensures JsonAsVariance(VarianceAsJson(sigma)) == Success(if IsUniform(sigma) then sigma else sigma.Transpose())
    ensures Symmetric(sigma) ==> JsonAsVariance(VarianceAsJson(sigma)) == Success(sigma)
  {
    if !IsUniform(sigma) {
      Mat3RoundTrip(sigma);
    }
  }

  /** k I with k != 0 is written as the number k and read back as k I. */
  lemma UniformVarianceRoundTrip(k: real)
    requires k != 0.0
    ensures VarianceAsJson(Identity3().Scale(k)) == JNumber(k)
    ensures JsonAsVariance(JNumber(k)) == Success(Identity3().Scale(k))
  {
  }

  // ---------------------------------------------------------------------
  // Composite operations and blend modes
  // ---------------------------------------------------------------------

  /** interpret_comp_op_as_json */
  function CompOpAsJson(op: CompOp): (j: Json)
    ensures j.JString?
    ensures j.s == "plus" <==> op.IsPlus()
    ensures j.s == "source-over" <==> op.IsSourceOver()
    ensures j.s == "unknown" <==> !op.IsPlus() && !op.IsSourceOver()
  {
    if op.IsPlus() then JString("plus")
    else if op.IsSourceOver() then JString("source-over")
    else JString("unknown")
  }

  /** The comp_op mapping of import_layer_infos: "source-over" is SourceOver, every other name Plus. */
  function CompOpFromName(name: string): (op: CompOp)
    ensures op == SourceOver() || op == Plus()
    ensures op == SourceOver() <==> name == "source-over"
  {
    if name == "source-over" then SourceOver() else Plus()
  }

  /** SourceOver and Plus round-trip; every other operation comes back as Plus. */
  lemma CompOpRoundTrip(op: CompOp)
    ensures op == SourceOver() || op == Plus() ==> CompOpFromName(StringValue(CompOpAsJson(op))) == op
    ensures op != SourceOver() ==> CompOpFromName(StringValue(CompOpAsJson(op))) == Plus()
  {
    SourceOverAndPlusExclusive(op);
  }

  /** interpret_blend_mode_as_json */
  function BlendModeAsJson(mode: BlendMode): (j: Json)
    ensures j.JString? && RetrieveByName(j.s) == Some(mode)
  {
    NameRoundTrip(mode);
    JString(RetrieveName(mode))
  }

  // ---------------------------------------------------------------------
  // Layer records
  // ---------------------------------------------------------------------

  /** What the file says about one layer: its operation, its mode, and its colour model's mean and covariance. */
  datatype LayerRecord = LayerRecord(compOp: CompOp, mode: BlendMode, mu: Vec3, sigma: Mat3)

  /** What export needs of a record: the covariance test divides by sigma(0, 0). */
  predicate Writable(d: LayerRecord)
  {
    d.sigma.At(0, 0) != 0.0
  }

  /** interpret_color_model_as_json */
  function ColorModelAsJson(mu: Vec3, sigma: Mat3): (j: Json)
    requires sigma.At(0, 0) != 0.0
    ensures j.JObject? && j.fields.Keys == {"primary_color", "color_variance"}
  {
    JObject(map["primary_color" := JArray(VecxJson(mu.ToSeq())), "color_variance" := VarianceAsJson(sigma)])
  }

  /** interpret_layer_info_as_json: exactly the three keys the importer reads. */
  function LayerRecordAsJson(d: LayerRecord): (j: Json)
    requires Writable(d)
    ensures j.JObject? && j.fields.Keys == {"mode", "color_model", "comp_op"}
  {
    JObject(map["mode" := BlendModeAsJson(d.mode), "color_model" := ColorModelAsJson(d.mu, d.sigma),
                "comp_op" := CompOpAsJson(d.compOp)])
  }

  /** interpret_layer_infos_as_json: one object per layer, in order. */
  method LayerRecordsAsJson(ds: seq<LayerRecord>) returns (items: seq<Json>)
    requires forall i :: 0 <= i < |ds| ==> Writable(ds[i])
    ensures |items| == |ds|
    ensures forall i :: 0 <= i < |ds| ==> items[i] == LayerRecordAsJson(ds[i])
  {
    items := [];
    for i := 0 to |ds|
      invariant |items| == i
      invariant forall k :: 0 <= k < i ==> items[k] == LayerRecordAsJson(ds[k])
    {
      items := items + [LayerRecordAsJson(ds[i])];
    }
  }

  /**
    * The field mapping of import_layer_infos for one array item. A mode name
    * outside the thirteen, a primary colour with fewer than three items and
    * a malformed covariance are failures.
    */
  function ImportLayerRecord(item: Json): (r: Result<LayerRecord>)
    ensures r.Success? <==> RetrieveByName(StringValue(Get(item, "mode"))).Some?
                            && JsonAsVec3(Get(Get(item, "color_model"), "primary_color")).Some?
                            && JsonAsVariance(Get(Get(item, "color_model"), "color_variance")).Success?
    ensures r.Success? ==> r.value.compOp == SourceOver() || r.value.compOp == Plus()
    ensures r.Success? ==> RetrieveName(r.value.mode) == StringValue(Get(item, "mode"))
    ensures r.Success? ==> r.value.compOp == CompOpFromName(StringValue(Get(item, "comp_op")))
    ensures r.Success? ==> Some(r.value.mu) == JsonAsVec3(Get(Get(item, "color_model"), "primary_color"))
    ensures r.Success? ==> Success(r.value.sigma) == JsonAsVariance(Get(Get(item, "color_model"), "color_variance"))
  {
    var modeName := StringValue(Get(item, "mode"));
    var compOp := CompOpFromName(StringValue(Get(item, "comp_op")));
    var model := Get(item, "color_model");
    match RetrieveByName(modeName)
    case None => Failure("unknown blend mode")
    case Some(mode) =>
      ByNameInverse(modeName, mode);
      match JsonAsVec3(Get(model, "primary_color"))
      case None => Failure("primary_color has fewer than three items")
      case Some(mu) =>
        match JsonAsVariance(Get(model, "color_variance"))
        case Failure(e) => Failure(e)
        case Success(sigma) => Success(LayerRecord(compOp, mode, mu, sigma))
  }

  /**
    * Exporting a record and importing the object gives the record back when
    * its operation is SourceOver or Plus and its covariance is symmetric.
    */
  lemma LayerRecordRoundTrip(d: LayerRecord)
    requires Writable(d) && (d.compOp == SourceOver() || d.compOp == Plus()) && Symmetric(d.sigma)
    ensures ImportLayerRecord(LayerRecordAsJson(d)) == Success(d)
  {
    var j := LayerRecordAsJson(d);
    NameRoundTrip(d.mode);
    CompOpRoundTrip(d.compOp);
    Vec3RoundTrip(d.mu);
    VarianceRoundTrip(d.sigma);
    assert Get(j, "mode") == BlendModeAsJson(d.mode);
    assert Get(j, "comp_op") == CompOpAsJson(d.compOp);
    assert Get(Get(j, "color_model"), "primary_color") == JArray(VecxJson(d.mu.ToSeq()));
    assert Get(Get(j, "color_model"), "color_variance") == VarianceAsJson(d.sigma);
  }

  /** import_layer_infos after parsing: one record per array item, in order; any bad item fails the import. */
  method ImportLayerRecords(j: Json) returns (r: Result<seq<LayerRecord>>)
    ensures r.Success? <==> forall i :: 0 <= i < |ArrayItems(j)| ==> ImportLayerRecord(ArrayItems(j)[i]).Success?
    ensures r.Success? ==> |r.value| == |ArrayItems(j)|
    ensures r.Success? ==> forall i :: 0 <= i < |r.value| ==> Success(r.value[i]) == ImportLayerRecord(ArrayItems(j)[i])
  {
    var items := ArrayItems(j);
    var records: seq<LayerRecord> := [];
    for i := 0 to |items|
      invariant |records| == i
      invariant forall k :: 0 <= k < i ==> Success(records[k]) == ImportLayerRecord(items[k])
    {
      var item := ImportLayerRecord(items[i]);
      if item.Failure? {
        return Failure(item.error);
      }
      records := records + [item.value];
    }
    r := Success(records);
  }
}
