/**
  `tilapia.rtds`: the schemas of the Regional Traffic Data System results.
  Unlike the transit tables, several fields are required but nullable (a
  present null loads as None), and the colour legend's fields are optional.
*/
module TilapiaRtds {
  import opened Wrappers
  import opened Exceptions
  import opened Civil
  import opened PyJson
  import opened Schemas

  const LiveDataTimestampResultSchema := Schema([ReqNullable("timestampUtc", KIsoDateTime)])

  const LinkInfoSchema := Schema([
    Req("linkId", KInteger), Req("isFwd", KBoolean), Req("angle", KFloat), Req("lengthMetres", KFloat),
    ReqNullable("speedKmph", KFloat), ReqNullable("travelTimeMinutes", KFloat), ReqNullable("quality", KInteger)])

  const LiveDataResultSchema := Schema([
    ReqNullable("timestampUtc", KIsoDateTime), Req("data", KNestedList(LinkInfoSchema))])

  const LiveDataAtPointResultSchema := Schema([
    Req("x", KFloat), Req("y", KFloat),
    ReqNullable("timestampUtc", KIsoDateTime), Req("data", KNestedList(LinkInfoSchema))])

  /** `fields.String()` twice: neither key is required, and neither allows null. */
  const ColourLegendItemSchema := Schema([Opt("name", KString), Opt("colour", KString)])

  lemma ResultTablesWellFormed()
    ensures WellFormed(LiveDataTimestampResultSchema) && WellFormed(LinkInfoSchema)
    ensures WellFormed(LiveDataResultSchema) && WellFormed(LiveDataAtPointResultSchema)
  {
  }

  /** `o[key]` is present, not null, and its coercion accepts it. */
  predicate NonNull(ctx: Ctx, kind: Kind, o: map<string, Json>, key: string) {
    key in o && o[key] != JNull && DecodeValue(ctx, kind, o[key]).Ok?
  }

  /** `o[key]` is present, and is null or accepted by its coercion. */
  predicate Nullable(ctx: Ctx, kind: Kind, o: map<string, Json>, key: string) {
    key in o && (o[key] == JNull || DecodeValue(ctx, kind, o[key]).Ok?)
  }

  /** A present null in a field of `sc` loads as None. */
  predicate NullIsNone(ctx: Ctx, sc: Schema, o: map<string, Json>, key: string) {
    key in o && o[key] == JNull ==> Attr(LoadObject(ctx, sc, o), key) == VNone
  }

  lemma ReqAccepted(ctx: Ctx, f: Field, o: map<string, Json>)
    requires f.required && !f.allowNone
    ensures Accepted(DecodeField(ctx, f, o)) <==> NonNull(ctx, f.kind, o, f.key)
  {
  }

  lemma ReqNullableAccepted(ctx: Ctx, f: Field, o: map<string, Json>)
    requires f.required && f.allowNone
    ensures Accepted(DecodeField(ctx, f, o)) <==> Nullable(ctx, f.kind, o, f.key)
  {
  }

  /**
    A link loads exactly when `linkId`, `isFwd`, `angle` and `lengthMetres`
    are present, non-null and coercible, and `speedKmph`, `travelTimeMinutes`
    and `quality` are present and null or coercible; a null among the latter
    loads as None.
  */
  lemma LinkInfoLoadsIff(ctx: Ctx, o: map<string, Json>)
    ensures LoadObject(ctx, LinkInfoSchema, o).Ok? <==>
      && NonNull(ctx, KInteger, o, "linkId") && NonNull(ctx, KBoolean, o, "isFwd")
      && NonNull(ctx, KFloat, o, "angle") && NonNull(ctx, KFloat, o, "lengthMetres")
      && Nullable(ctx, KFloat, o, "speedKmph") && Nullable(ctx, KFloat, o, "travelTimeMinutes")
      && Nullable(ctx, KInteger, o, "quality")
    ensures LoadObject(ctx, LinkInfoSchema, o).Ok? ==>
      && NullIsNone(ctx, LinkInfoSchema, o, "speedKmph")
      && NullIsNone(ctx, LinkInfoSchema, o, "travelTimeMinutes")
      && NullIsNone(ctx, LinkInfoSchema, o, "quality")
  {
    var fs := LinkInfoSchema.fields;
    ResultTablesWellFormed();
    AllRequiredOkIff(ctx, LinkInfoSchema, o);
    ReqAccepted(ctx, fs[0], o);
    ReqAccepted(ctx, fs[1], o);
    ReqAccepted(ctx, fs[2], o);
    ReqAccepted(ctx, fs[3], o);
    ReqNullableAccepted(ctx, fs[4], o);
    ReqNullableAccepted(ctx, fs[5], o);
    ReqNullableAccepted(ctx, fs[6], o);
    if LoadObject(ctx, LinkInfoSchema, o).Ok? {
      LoadedAttribute(ctx, LinkInfoSchema, o, 4);
      LoadedAttribute(ctx, LinkInfoSchema, o, 5);
      LoadedAttribute(ctx, LinkInfoSchema, o, 6);
    }
  }

  /** `o["timestampUtc"]` is present and `v` is None for a null, or the ISO date-time the string gives. */
  predicate TimestampIs(ctx: Ctx, o: map<string, Json>, v: Value) {
    && "timestampUtc" in o
    && (o["timestampUtc"] == JNull ==> v == VNone)
    && (o["timestampUtc"] != JNull ==>
          o["timestampUtc"].JString? && v.VTime? && ctx.env.isoDateTime(o["timestampUtc"].s) == Some(v.t))
  }

  /**
    `timestampUtc` is required but nullable in all three results: each loaded
    result carries None for a null and the parsed date-time otherwise, and a
    missing key fails each of them.
  */
  lemma TimestampRequiredNullable(ctx: Ctx, o: map<string, Json>)
    ensures LoadObject(ctx, LiveDataTimestampResultSchema, o).Ok? ==>
      TimestampIs(ctx, o, Attr(LoadObject(ctx, LiveDataTimestampResultSchema, o), "timestampUtc"))
    ensures LoadObject(ctx, LiveDataResultSchema, o).Ok? ==>
      TimestampIs(ctx, o, Attr(LoadObject(ctx, LiveDataResultSchema, o), "timestampUtc"))
    ensures LoadObject(ctx, LiveDataAtPointResultSchema, o).Ok? ==>
      TimestampIs(ctx, o, Attr(LoadObject(ctx, LiveDataAtPointResultSchema, o), "timestampUtc"))
    ensures "timestampUtc" !in o ==>
      && !LoadObject(ctx, LiveDataTimestampResultSchema, o).Ok?
      && !LoadObject(ctx, LiveDataResultSchema, o).Ok?
      && !LoadObject(ctx, LiveDataAtPointResultSchema, o).Ok?
  {
    ResultTablesWellFormed();
    if "timestampUtc" !in o {
      MissingOrNullFails(ctx, LiveDataTimestampResultSchema, o, 0);
      MissingOrNullFails(ctx, LiveDataResultSchema, o, 0);
      MissingOrNullFails(ctx, LiveDataAtPointResultSchema, o, 2);
    } else {
      if LoadObject(ctx, LiveDataTimestampResultSchema, o).Ok? {
        LoadedAttribute(ctx, LiveDataTimestampResultSchema, o, 0);
      }
      if LoadObject(ctx, LiveDataResultSchema, o).Ok? {
        LoadedAttribute(ctx, LiveDataResultSchema, o, 0);
      }
      if LoadObject(ctx, LiveDataAtPointResultSchema, o).Ok? {
        LoadedAttribute(ctx, LiveDataAtPointResultSchema, o, 2);
      }
    }
  }

  /** A null timestamp is not a failure: the timestamp result then loads as a record holding None. */
  lemma NullTimestampLoads(ctx: Ctx, o: map<string, Json>)
    requires "timestampUtc" in o && o["timestampUtc"] == JNull
    ensures LoadObject(ctx, LiveDataTimestampResultSchema, o) == Ok(VRecord(map["timestampUtc" := VNone]))
  {
    var fs := LiveDataTimestampResultSchema.fields;
    var m := map["timestampUtc" := VNone];
    assert fs[1..] == [];
    assert DecodeField(ctx, fs[0], o) == Loaded(VNone);
    assert DecodeFields(ctx, fs, o) == Ok(m);
    assert Complete(LiveDataTimestampResultSchema, m);
    assert NamesOf(fs) == {"timestampUtc"};
    assert Filled(LiveDataTimestampResultSchema, m) == m;
  }

  /**
    Both live-data results carry `data` exactly as the link schema loads its
    items, one by one and in order; one failing link fails the whole result.
  */
  lemma LiveDataLinks(ctx: Ctx, o: map<string, Json>)
    ensures var r := LoadObject(ctx, LiveDataResultSchema, o);
      r.Ok? ==> LoadsListTo(ctx, LinkInfoSchema, o, "data", Attr(r, "data"))
    ensures var r := LoadObject(ctx, LiveDataAtPointResultSchema, o);
      r.Ok? ==> LoadsListTo(ctx, LinkInfoSchema, o, "data", Attr(r, "data"))
    ensures SomeItemFails(ctx, LinkInfoSchema, o, "data") ==>
      !LoadObject(ctx, LiveDataResultSchema, o).Ok? && !LoadObject(ctx, LiveDataAtPointResultSchema, o).Ok?
  {
    ResultTablesWellFormed();
    if LoadObject(ctx, LiveDataResultSchema, o).Ok? {
      NestedListAttribute(ctx, LiveDataResultSchema, LinkInfoSchema, o, 1);
    }
    if LoadObject(ctx, LiveDataAtPointResultSchema, o).Ok? {
      NestedListAttribute(ctx, LiveDataAtPointResultSchema, LinkInfoSchema, o, 3);
    }
    if SomeItemFails(ctx, LinkInfoSchema, o, "data") {
      NestedItemFailureFails(ctx, LiveDataResultSchema, LinkInfoSchema, o, 1);
      NestedItemFailureFails(ctx, LiveDataAtPointResultSchema, LinkInfoSchema, o, 3);
    }
  }

  /** `key` is absent or null. */
  predicate MissingOrNull(o: map<string, Json>, key: string) {
    key !in o || o[key] == JNull
  }

  /** The point result needs both coordinates, non-null, and carries the floats they coerce to. */
  lemma PointNeedsCoordinates(ctx: Ctx, o: map<string, Json>)
    ensures MissingOrNull(o, "x") || MissingOrNull(o, "y") ==> !LoadObject(ctx, LiveDataAtPointResultSchema, o).Ok?
    ensures var r := LoadObject(ctx, LiveDataAtPointResultSchema, o);
      r.Ok? ==>
        && "x" in o && Attr(r, "x").VFloat? && ctx.env.float(o["x"]) == Some(Attr(r, "x").f)
        && "y" in o && Attr(r, "y").VFloat? && ctx.env.float(o["y"]) == Some(Attr(r, "y").f)
  {
    var sc := LiveDataAtPointResultSchema;
    ResultTablesWellFormed();
    if MissingOrNull(o, "x") {
      MissingOrNullFails(ctx, sc, o, 0);
    }
    if MissingOrNull(o, "y") {
      MissingOrNullFails(ctx, sc, o, 1);
    }
    if LoadObject(ctx, sc, o).Ok? {
      AllRequiredLoad(ctx, sc, o);
      LoadedAttribute(ctx, sc, o, 0);
      LoadedAttribute(ctx, sc, o, 1);
    }
  }

  // ---------------------------------------------------------------------
  // The colour legend

  /** Every colour-legend key that is present holds a string. */
  predicate StringsIfPresent(o: map<string, Json>) {
    && ("name" in o ==> o["name"].JString?)
    && ("colour" in o ==> o["colour"].JString?)
  }

  /** The attribute an optional string key gives once absent attributes are None. */
  function OptStr(o: map<string, Json>, key: string): Value {
    if key in o && o[key].JString? then VStr(o[key].s) else VNone
  }

  /** The decoded attributes of a legend item: present string keys only. */
  lemma LegendFields(ctx: Ctx, o: map<string, Json>)
    ensures DecodeFields(ctx, ColourLegendItemSchema.fields, o).Ok? <==> StringsIfPresent(o)
    ensures StringsIfPresent(o) ==>
      var m := DecodeFields(ctx, ColourLegendItemSchema.fields, o).value;
      && ("name" in m <==> "name" in o) && ("colour" in m <==> "colour" in o)
      && ("name" in m ==> m["name"] == OptStr(o, "name"))
      && ("colour" in m ==> m["colour"] == OptStr(o, "colour"))
      && m.Keys <= {"name", "colour"}
  {
    var fs := ColourLegendItemSchema.fields;
    assert fs[1..][1..] == [];
    assert DecodeFields(ctx, fs[1..][1..], o) == Ok(map[]);
    assert fs[0] == Field("name", "name", KString, false, false);
    assert fs[1..][0] == Field("colour", "colour", KString, false, false);
    forall j: Json ensures DecodeValue(ctx, KString, j) == if j.JString? then Ok(VStr(j.s)) else Invalid {
    }
    var name := DecodeField(ctx, fs[0], o);
    var colour := DecodeField(ctx, fs[1..][0], o);
    assert Accepted(name) <==> ("name" in o ==> o["name"].JString?);
    assert Accepted(colour) <==> ("colour" in o ==> o["colour"].JString?);
    assert name.Loaded? ==> "name" in o && name.v == OptStr(o, "name");
    assert colour.Loaded? ==> "colour" in o && colour.v == OptStr(o, "colour");
    assert name.Skipped? <==> "name" !in o;
    assert colour.Skipped? <==> "colour" !in o;
  }

  /**
    As written, `ColourLegendItem(**js)` needs both attributes: an item loads
    exactly when both keys hold strings, and an item that omits a key but is
    otherwise valid raises TypeError instead of loading.
  */
  lemma ColourLegendAsWritten(ctx: Ctx, o: map<string, Json>)
    requires ctx.construction == AsWritten
    ensures LoadObject(ctx, ColourLegendItemSchema, o).Ok? <==>
      "name" in o && o["name"].JString? && "colour" in o && o["colour"].JString?
    ensures StringsIfPresent(o) && ("name" !in o || "colour" !in o) ==>
      LoadObject(ctx, ColourLegendItemSchema, o) == Escaped(TypeError)
  {
    LegendFields(ctx, o);
    var fs := ColourLegendItemSchema.fields;
    if StringsIfPresent(o) {
      var m := DecodeFields(ctx, fs, o).value;
      assert Complete(ColourLegendItemSchema, m) <==> "name" in m && "colour" in m;
    }
  }

  /** The legend item without a `name` that shows the TypeError. */
  lemma ColourLegendMissingName(ctx: Ctx)
    requires ctx.construction == AsWritten
    ensures LoadObject(ctx, ColourLegendItemSchema, map["colour" := JString("#FF0000")]) == Escaped(TypeError)
  {
    ColourLegendAsWritten(ctx, map["colour" := JString("#FF0000")]);
  }

  /**
    With absent attributes filled with None, the fields are optional as
    declared: an item loads exactly when every present key holds a string,
    and an absent key gives None.
  */
  lemma ColourLegendOptional(ctx: Ctx, o: map<string, Json>)
    requires ctx.construction == FillAbsent
    ensures LoadObject(ctx, ColourLegendItemSchema, o).Ok? <==> StringsIfPresent(o)
    ensures LoadObject(ctx, ColourLegendItemSchema, o).Ok? ==>
      LoadObject(ctx, ColourLegendItemSchema, o).value ==
        VRecord(map["name" := OptStr(o, "name"), "colour" := OptStr(o, "colour")])
  {
    LegendFields(ctx, o);
    var fs := ColourLegendItemSchema.fields;
    if StringsIfPresent(o) {
      var m := DecodeFields(ctx, fs, o).value;
      assert NamesOf(fs) == {"name", "colour"};
      assert Filled(ColourLegendItemSchema, m) == map["name" := OptStr(o, "name"), "colour" := OptStr(o, "colour")];
    }
  }
}
