/**
  The field tables of the Real-Time Transit Information schemas.  `tilapya`
  and `tilapia` declare the same tables; they differ only in the two parse
  functions plugged into the `fields.Function` fields, so the tables here
  take those functions as a parameter.  Every field is `required=True` and
  none allows None; each attribute reads the key of the same name.
*/
module RttiSchemas {
  import opened Wrappers
  import opened Exceptions
  import opened Civil
  import opened PyJson
  import opened Schemas

  /** The deserializers of the `ExpectedLeaveTime`, `LastUpdate` and `RecordedTime` fields. */
  datatype Parsers = Parsers(
    leaveTime: (string, DateTime) -> Result<DateTime, PyException>,
    lastUpdate: (string, DateTime) -> Result<DateTime, PyException>)

  const StopSchema := Schema([
    Req("StopNo", KInteger), Req("Name", KString), Req("BayNo", KString), Req("City", KString),
    Req("OnStreet", KString), Req("AtStreet", KString), Req("Latitude", KFloat), Req("Longitude", KFloat),
    Req("WheelchairAccess", KBoolean), Req("Distance", KInteger), Req("Routes", KString)])

  function ScheduleSchema(p: Parsers): Schema {
    Schema([
      Req("Pattern", KString), Req("Destination", KString), Req("ExpectedLeaveTime", KFunction(p.leaveTime)),
      Req("ExpectedCountdown", KInteger), Req("ScheduleStatus", KString), Req("CancelledTrip", KBoolean),
      Req("CancelledStop", KBoolean), Req("AddedTrip", KBoolean), Req("AddedStop", KBoolean),
      Req("LastUpdate", KFunction(p.lastUpdate))])
  }

  /** `fields.Url(relative=False)`: the link must be an absolute URL. */
  const RouteMapSchema := Schema([Req("Href", KUrl)])

  function StopEstimateSchema(p: Parsers): Schema {
    Schema([
      Req("RouteNo", KString), Req("RouteName", KString), Req("Direction", KString),
      Req("RouteMap", KNested(RouteMapSchema)), Req("Schedules", KNestedList(ScheduleSchema(p)))])
  }

  function BusSchema(p: Parsers): Schema {
    Schema([
      Req("VehicleNo", KString), Req("TripId", KInteger), Req("RouteNo", KString), Req("Direction", KString),
      Req("Destination", KString), Req("Pattern", KString), Req("Latitude", KFloat), Req("Longitude", KFloat),
      Req("RecordedTime", KFunction(p.lastUpdate)), Req("RouteMap", KNested(RouteMapSchema))])
  }

  const PatternSchema := Schema([
    Req("PatternNo", KString), Req("Destination", KString), Req("RouteMap", KNested(RouteMapSchema)),
    Req("Direction", KString)])

  const RouteSchema := Schema([
    Req("RouteNo", KString), Req("Name", KString), Req("OperatingCompany", KString),
    Req("Patterns", KNestedList(PatternSchema))])

  const StatusSchema := Schema([Req("Name", KString), Req("Value", KString)])

  lemma TablesWellFormed(p: Parsers)
    ensures WellFormed(StopSchema) && WellFormed(ScheduleSchema(p)) && WellFormed(RouteMapSchema)
    ensures WellFormed(StopEstimateSchema(p)) && WellFormed(BusSchema(p)) && WellFormed(PatternSchema)
    ensures WellFormed(RouteSchema) && WellFormed(StatusSchema)
  {
    StopWellFormed();
    ScheduleWellFormed(p);
    BusWellFormed(p);
  }

  lemma StopWellFormed() ensures WellFormed(StopSchema) {}
  lemma ScheduleWellFormed(p: Parsers) ensures WellFormed(ScheduleSchema(p)) {}
  lemma BusWellFormed(p: Parsers) ensures WellFormed(BusSchema(p)) {}

  /** Every table is all-required: a load that succeeds saw every key and yields exactly those attributes. */
  lemma EveryTableLoadsExactly(ctx: Ctx, p: Parsers, o: map<string, Json>)
    ensures LoadsExactly(ctx, StopSchema, o) && LoadsExactly(ctx, ScheduleSchema(p), o)
    ensures LoadsExactly(ctx, RouteMapSchema, o) && LoadsExactly(ctx, StopEstimateSchema(p), o)
    ensures LoadsExactly(ctx, BusSchema(p), o) && LoadsExactly(ctx, PatternSchema, o)
    ensures LoadsExactly(ctx, RouteSchema, o) && LoadsExactly(ctx, StatusSchema, o)
  {
    TablesWellFormed(p);
    if LoadObject(ctx, StopSchema, o).Ok? { AllRequiredLoad(ctx, StopSchema, o); }
    if LoadObject(ctx, ScheduleSchema(p), o).Ok? { AllRequiredLoad(ctx, ScheduleSchema(p), o); }
    if LoadObject(ctx, RouteMapSchema, o).Ok? { AllRequiredLoad(ctx, RouteMapSchema, o); }
    if LoadObject(ctx, StopEstimateSchema(p), o).Ok? { AllRequiredLoad(ctx, StopEstimateSchema(p), o); }
    if LoadObject(ctx, BusSchema(p), o).Ok? { AllRequiredLoad(ctx, BusSchema(p), o); }
    if LoadObject(ctx, PatternSchema, o).Ok? { AllRequiredLoad(ctx, PatternSchema, o); }
    if LoadObject(ctx, RouteSchema, o).Ok? { AllRequiredLoad(ctx, RouteSchema, o); }
    if LoadObject(ctx, StatusSchema, o).Ok? { AllRequiredLoad(ctx, StatusSchema, o); }
  }

  /** A route map loads exactly when `Href` is a string the absolute-URL check accepts; it is kept verbatim. */
  lemma RouteMapNeedsAbsoluteUrl(ctx: Ctx, o: map<string, Json>)
    ensures LoadObject(ctx, RouteMapSchema, o).Ok? <==>
      "Href" in o && o["Href"].JString? && ctx.env.absoluteUrl(o["Href"].s)
    ensures LoadObject(ctx, RouteMapSchema, o).Ok? ==>
      LoadObject(ctx, RouteMapSchema, o).value == VRecord(map["Href" := VStr(o["Href"].s)])
  {
    var fs := RouteMapSchema.fields;
    assert fs[1..] == [];
    assert DecodeFields(ctx, fs[1..], o) == Ok(map[]);
    if "Href" in o && o["Href"].JString? && ctx.env.absoluteUrl(o["Href"].s) {
      var m := map["Href" := VStr(o["Href"].s)];
      assert DecodeField(ctx, fs[0], o) == Loaded(VStr(o["Href"].s));
      assert DecodeFields(ctx, fs, o) == Ok(m);
      assert Complete(RouteMapSchema, m);
      assert NamesOf(fs) == {"Href"};
      assert Filled(RouteMapSchema, m) == m;
    } else {
      assert DecodeField(ctx, fs[0], o) == Rejected;
      assert DecodeFields(ctx, fs, o) == Invalid;
    }
  }

  /**
    A stop estimate carries its route map and its schedules exactly as their
    own schemas load them, in order; any failing schedule or route map fails it.
  */
  lemma StopEstimateNesting(ctx: Ctx, p: Parsers, o: map<string, Json>)
    ensures var r := LoadObject(ctx, StopEstimateSchema(p), o);
      r.Ok? ==>
        && LoadsTo(ctx, RouteMapSchema, o, "RouteMap", Attr(r, "RouteMap"))
        && LoadsListTo(ctx, ScheduleSchema(p), o, "Schedules", Attr(r, "Schedules"))
    ensures SomeItemFails(ctx, ScheduleSchema(p), o, "Schedules") ==> !LoadObject(ctx, StopEstimateSchema(p), o).Ok?
    ensures ObjectFails(ctx, RouteMapSchema, o, "RouteMap") ==> !LoadObject(ctx, StopEstimateSchema(p), o).Ok?
  {
    var sc := StopEstimateSchema(p);
    TablesWellFormed(p);
    if LoadObject(ctx, sc, o).Ok? {
      NestedAttribute(ctx, sc, RouteMapSchema, o, 3);
      NestedListAttribute(ctx, sc, ScheduleSchema(p), o, 4);
    }
    if SomeItemFails(ctx, ScheduleSchema(p), o, "Schedules") {
      NestedItemFailureFails(ctx, sc, ScheduleSchema(p), o, 4);
    }
    if ObjectFails(ctx, RouteMapSchema, o, "RouteMap") {
      NestedFailureFails(ctx, sc, RouteMapSchema, o, 3);
    }
  }

  /** A route carries its patterns exactly as the pattern schema loads them, in order; any failing pattern fails it. */
  lemma RouteNesting(ctx: Ctx, o: map<string, Json>)
    ensures var r := LoadObject(ctx, RouteSchema, o);
      r.Ok? ==> LoadsListTo(ctx, PatternSchema, o, "Patterns", Attr(r, "Patterns"))
    ensures SomeItemFails(ctx, PatternSchema, o, "Patterns") ==> !LoadObject(ctx, RouteSchema, o).Ok?
  {
    assert WellFormed(RouteSchema);
    if LoadObject(ctx, RouteSchema, o).Ok? {
      NestedListAttribute(ctx, RouteSchema, PatternSchema, o, 3);
    }
    if SomeItemFails(ctx, PatternSchema, o, "Patterns") {
      NestedItemFailureFails(ctx, RouteSchema, PatternSchema, o, 3);
    }
  }

  /** A bus and a pattern each carry the route map their nested schema loads; a failing route map fails them. */
  lemma RouteMapNesting(ctx: Ctx, p: Parsers, o: map<string, Json>)
    ensures var r := LoadObject(ctx, BusSchema(p), o);
      r.Ok? ==> LoadsTo(ctx, RouteMapSchema, o, "RouteMap", Attr(r, "RouteMap"))
    ensures var r := LoadObject(ctx, PatternSchema, o);
      r.Ok? ==> LoadsTo(ctx, RouteMapSchema, o, "RouteMap", Attr(r, "RouteMap"))
    ensures ObjectFails(ctx, RouteMapSchema, o, "RouteMap") ==>
      !LoadObject(ctx, BusSchema(p), o).Ok? && !LoadObject(ctx, PatternSchema, o).Ok?
  {
    TablesWellFormed(p);
    if LoadObject(ctx, BusSchema(p), o).Ok? {
      NestedAttribute(ctx, BusSchema(p), RouteMapSchema, o, 9);
    }
    if LoadObject(ctx, PatternSchema, o).Ok? {
      NestedAttribute(ctx, PatternSchema, RouteMapSchema, o, 2);
    }
    if ObjectFails(ctx, RouteMapSchema, o, "RouteMap") {
      NestedFailureFails(ctx, BusSchema(p), RouteMapSchema, o, 9);
      NestedFailureFails(ctx, PatternSchema, RouteMapSchema, o, 2);
    }
  }

  /** `o[key]` is a string that `parse` turns, measured from `now`, into the time `v` holds. */
  predicate ParsedTo(parse: (string, DateTime) -> Result<DateTime, PyException>, now: DateTime, o: map<string, Json>, key: string, v: Value) {
    key in o && o[key].JString? && v.VTime? && parse(o[key].s, now) == Success(v.t)
  }

  /** The leave time of a loaded schedule is what the package's parse function gives for its string, measured from now. */
  lemma ScheduleLeaveTime(ctx: Ctx, p: Parsers, o: map<string, Json>)
    ensures var r := LoadObject(ctx, ScheduleSchema(p), o);
      r.Ok? ==> ParsedTo(p.leaveTime, ctx.now, o, "ExpectedLeaveTime", Attr(r, "ExpectedLeaveTime"))
  {
    if LoadObject(ctx, ScheduleSchema(p), o).Ok? {
      ScheduleWellFormed(p);
      AllRequiredLoad(ctx, ScheduleSchema(p), o);
      LoadedAttribute(ctx, ScheduleSchema(p), o, 2);
    }
  }

  /** The last update of a loaded schedule is the last-update parse of its string. */
  lemma ScheduleLastUpdate(ctx: Ctx, p: Parsers, o: map<string, Json>)
    ensures var r := LoadObject(ctx, ScheduleSchema(p), o);
      r.Ok? ==> ParsedTo(p.lastUpdate, ctx.now, o, "LastUpdate", Attr(r, "LastUpdate"))
  {
    if LoadObject(ctx, ScheduleSchema(p), o).Ok? {
      ScheduleWellFormed(p);
      AllRequiredLoad(ctx, ScheduleSchema(p), o);
      LoadedAttribute(ctx, ScheduleSchema(p), o, 9);
    }
  }

  /** A bus's recorded time is the last-update parse of its string. */
  lemma BusLoadedTime(ctx: Ctx, p: Parsers, o: map<string, Json>)
    ensures var r := LoadObject(ctx, BusSchema(p), o);
      r.Ok? ==> ParsedTo(p.lastUpdate, ctx.now, o, "RecordedTime", Attr(r, "RecordedTime"))
  {
    if LoadObject(ctx, BusSchema(p), o).Ok? {
      BusWellFormed(p);
      AllRequiredLoad(ctx, BusSchema(p), o);
      LoadedAttribute(ctx, BusSchema(p), o, 8);
    }
  }

  /**
    A leave-time string the parse function rejects is not a validation error:
    its exception escapes the whole load, whatever the other fields hold.
  */
  lemma ScheduleLeaveTimeEscapes(ctx: Ctx, p: Parsers, o: map<string, Json>)
    requires "ExpectedLeaveTime" in o && o["ExpectedLeaveTime"].JString?
    requires p.leaveTime(o["ExpectedLeaveTime"].s, ctx.now).Failure?
    ensures LoadObject(ctx, ScheduleSchema(p), o) == Escaped(p.leaveTime(o["ExpectedLeaveTime"].s, ctx.now).error)
  {
    var fs := ScheduleSchema(p).fields;
    PlainFieldNeverRaises(ctx, fs[0], o);
    PlainFieldNeverRaises(ctx, fs[1], o);
    FirstEscapeWins(ctx, fs, o, 2);
  }

  /** The same holds for a bus's recorded time, which no earlier field can pre-empt. */
  lemma BusRecordedTimeEscapes(ctx: Ctx, p: Parsers, o: map<string, Json>)
    requires "RecordedTime" in o && o["RecordedTime"].JString?
    requires p.lastUpdate(o["RecordedTime"].s, ctx.now).Failure?
    ensures LoadObject(ctx, BusSchema(p), o) == Escaped(p.lastUpdate(o["RecordedTime"].s, ctx.now).error)
  {
    var fs := BusSchema(p).fields;
    forall k | 0 <= k < 8 ensures !DecodeField(ctx, fs[k], o).Raised? {
      PlainFieldNeverRaises(ctx, fs[k], o);
    }
    FirstEscapeWins(ctx, fs, o, 8);
  }
}
