// `airports.schemas.ts`: the list query, and the create and update bodies with
// their lengths, upper-casing and the non-empty-update rule.
module AirportSchemas {
  import opened Common
  import opened Zod

  /** The trimmed `search` and `country` query values. */
  datatype AirportQuery = AirportQuery(search: Option<string>, country: Option<string>)

  function ListAirportsQuery(query: Body): (r: Parsed<AirportQuery>)
    ensures r.Accepted? <==> (("search" in query ==> query["search"].JStr?) && ("country" in query ==> query["country"].JStr?))
    ensures r.Accepted? ==> (r.value.search.Some? <==> "search" in query)
    ensures r.Accepted? && r.value.search.Some? ==> r.value.search.value == Trim(query["search"].s)
    ensures r.Accepted? ==> (r.value.country.Some? <==> "country" in query)
    ensures r.Accepted? && r.value.country.Some? ==> r.value.country.value == Trim(query["country"].s)
  {
    if OptStrWithin(query, "search", 0, None) && OptStrWithin(query, "country", 0, None) then
      var search := OptStr(query, "search");
      var country := OptStr(query, "country");
      Accepted(AirportQuery(if search.Some? then Some(Trim(search.value)) else None,
                            if country.Some? then Some(Trim(country.value)) else None))
    else Rejected
  }

  /** A validated new airport: codes upper-cased. */
  datatype AirportData = AirportData(id: string, name: string, icaoCode: string, iataCode: Option<string>,
                                     city: string, country: string, timezone: string)

  function CreateAirportSchema(body: Body): (r: Parsed<AirportData>)
    ensures r.Accepted? <==>
      && IsStr(body, "id") && 3 <= |body["id"].s| <= 10
      && IsStr(body, "name") && body["name"].s != ""
      && IsStr(body, "icaoCode") && |body["icaoCode"].s| == 4
      && ("iataCode" in body ==> body["iataCode"].JStr? && |body["iataCode"].s| == 3)
      && IsStr(body, "city") && body["city"].s != ""
      && IsStr(body, "country") && body["country"].s != ""
      && IsStr(body, "timezone") && body["timezone"].s != ""
    ensures r.Accepted? ==> r.value.id == Upper(body["id"].s) && r.value.icaoCode == Upper(body["icaoCode"].s)
    ensures r.Accepted? ==> (r.value.iataCode.Some? <==> "iataCode" in body)
    ensures r.Accepted? && r.value.iataCode.Some? ==> r.value.iataCode.value == Upper(body["iataCode"].s)
    ensures r.Accepted? ==> r.value.name == body["name"].s && r.value.city == body["city"].s
    ensures r.Accepted? ==> r.value.country == body["country"].s && r.value.timezone == body["timezone"].s
  {
    if && StrWithin(body, "id", 3, Some(10))
       && StrWithin(body, "name", 1, None)
       && StrWithin(body, "icaoCode", 4, Some(4))
       && OptStrWithin(body, "iataCode", 3, Some(3))
       && StrWithin(body, "city", 1, None)
       && StrWithin(body, "country", 1, None)
       && StrWithin(body, "timezone", 1, None)
    then
      var iata := OptStr(body, "iataCode");
      Accepted(AirportData(Upper(Str(body, "id")), Str(body, "name"), Upper(Str(body, "icaoCode")),
                           if iata.Some? then Some(Upper(iata.value)) else None,
                           Str(body, "city"), Str(body, "country"), Str(body, "timezone")))
    else Rejected
  }

  /** A validated update: every field optional, `id` not among them. */
  datatype AirportPatch = AirportPatch(name: Option<string>, icaoCode: Option<string>, iataCode: Option<string>,
                                       city: Option<string>, country: Option<string>, timezone: Option<string>)

  const UpdateKeys: set<string> := {"name", "icaoCode", "iataCode", "city", "country", "timezone"}

  predicate PatchNonEmpty(p: AirportPatch)
  {
    p.name.Some? || p.icaoCode.Some? || p.iataCode.Some? || p.city.Some? || p.country.Some? || p.timezone.Some?
  }

  function UpdateAirportSchema(body: Body): (r: Parsed<AirportPatch>)
    ensures r.Accepted? <==>
      && OptStrWithin(body, "name", 1, None)
      && ("icaoCode" in body ==> body["icaoCode"].JStr? && |body["icaoCode"].s| == 4)
      && ("iataCode" in body ==> body["iataCode"].JStr? && |body["iataCode"].s| == 3)
      && OptStrWithin(body, "city", 1, None)
      && OptStrWithin(body, "country", 1, None)
      && OptStrWithin(body, "timezone", 1, None)
      && PresentKeys(body, UpdateKeys) != {}
    ensures r.Accepted? ==> PatchNonEmpty(r.value)
    ensures r.Accepted? ==> (r.value.icaoCode.Some? <==> "icaoCode" in body)
    ensures r.Accepted? && r.value.icaoCode.Some? ==> r.value.icaoCode.value == Upper(body["icaoCode"].s)
    ensures r.Accepted? ==> (r.value.iataCode.Some? <==> "iataCode" in body)
    ensures r.Accepted? && r.value.iataCode.Some? ==> r.value.iataCode.value == Upper(body["iataCode"].s)
    ensures r.Accepted? ==> CarriesStr(r.value.name, body, "name") && CarriesStr(r.value.city, body, "city")
    ensures r.Accepted? ==> CarriesStr(r.value.country, body, "country") && CarriesStr(r.value.timezone, body, "timezone")
  {
    if && OptStrWithin(body, "name", 1, None)
       && OptStrWithin(body, "icaoCode", 4, Some(4))
       && OptStrWithin(body, "iataCode", 3, Some(3))
       && OptStrWithin(body, "city", 1, None)
       && OptStrWithin(body, "country", 1, None)
       && OptStrWithin(body, "timezone", 1, None)
       && PresentKeys(body, UpdateKeys) != {}
    then
      var icao := OptStr(body, "icaoCode");
      var iata := OptStr(body, "iataCode");
      var p := AirportPatch(OptStr(body, "name"), if icao.Some? then Some(Upper(icao.value)) else None,
                            if iata.Some? then Some(Upper(iata.value)) else None,
                            OptStr(body, "city"), OptStr(body, "country"), OptStr(body, "timezone"));
      assert exists k :: k in body && k in UpdateKeys;
      Accepted(p)
    else Rejected
  }

  /** The update body cannot carry an id: one is stripped, not applied. */
  lemma UpdateIgnoresId(body: Body, v: Json)
    requires "id" !in body
    ensures UpdateAirportSchema(body["id" := v]) == UpdateAirportSchema(body)
  {
    var b := body["id" := v];
    assert PresentKeys(b, UpdateKeys) == PresentKeys(body, UpdateKeys);
    KeyKept(body, v, "name");
    KeyKept(body, v, "icaoCode");
    KeyKept(body, v, "iataCode");
    KeyKept(body, v, "city");
    KeyKept(body, v, "country");
    KeyKept(body, v, "timezone");
  }

  lemma KeyKept(body: Body, v: Json, k: string)
    requires k != "id"
    ensures OptStrWithin(body["id" := v], k, 1, None) == OptStrWithin(body, k, 1, None)
    ensures OptStrWithin(body["id" := v], k, 3, Some(3)) == OptStrWithin(body, k, 3, Some(3))
    ensures OptStrWithin(body["id" := v], k, 4, Some(4)) == OptStrWithin(body, k, 4, Some(4))
    ensures k in body ==> body["id" := v][k] == body[k]
  {
  }

  /** An empty body, or one holding only unknown keys, is rejected. */
  lemma UpdateNeedsAField(body: Body)
    requires forall k :: k in body ==> k !in UpdateKeys
    ensures UpdateAirportSchema(body).Rejected?
  {
    assert PresentKeys(body, UpdateKeys) == {};
  }
}
