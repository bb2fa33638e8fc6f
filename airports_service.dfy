// `airports.service.ts`: the search/country filter, the listing by country
// then city, creation and update by code.
module AirportsService {
  import opened Common
  import opened Store
  import opened Ordering
  import opened AppErrors
  import opened AirportSchemas

  /** The Prisma `where`: a search term matched against five columns, and a
      country fragment; each clause present only when its filter is truthy. */
  datatype AirportWhere = AirportWhere(search: Option<string>, country: Option<string>)

  function BuildWhere(q: AirportQuery): (w: AirportWhere)
    ensures w.search.Some? <==> Truthy(q.search)
    ensures w.search.Some? ==> w.search.value == Trim(q.search.value)
    ensures w.country.Some? <==> Truthy(q.country)
    ensures w.country.Some? ==> w.country.value == q.country.value
  {
    AirportWhere(if Truthy(q.search) then Some(Trim(q.search.value)) else None,
                 if Truthy(q.country) then Some(q.country.value) else None)
  }

  /** `contains` with `mode: 'insensitive'`; a null `iataCode` never matches. */
  predicate Matches(w: AirportWhere, a: Airport)
  {
    && (w.search.Some? ==>
          var t := w.search.value;
          || ContainsInsensitive(a.id, t) || ContainsInsensitive(a.name, t)
          || ContainsInsensitive(a.icaoCode, t)
          || (a.iataCode.Some? && ContainsInsensitive(a.iataCode.value, t))
          || ContainsInsensitive(a.city, t))
    && (w.country.Some? ==> ContainsInsensitive(a.country, w.country.value))
  }

  /** No filter, or only blank ones, selects every airport. */
  lemma EmptyQuerySelectsAll(q: AirportQuery, a: Airport)
    requires !Truthy(q.search) && !Truthy(q.country)
    ensures Matches(BuildWhere(q), a)
  {
  }

  /** The query schema already trims, so the second trim here changes nothing. */
  lemma SecondTrimIsRedundant(s: string)
    requires Trim(s) != ""
    ensures BuildWhere(AirportQuery(Some(Trim(s)), None)).search == Some(Trim(s))
  {
    TrimIdempotent(s);
  }

  function CountryCity(a: Airport): seq<int> { AscAsc(a.country, a.city) }

  /** Exactly the matching airports, ordered by country and, within a country, by city. */
  function ListAirports(db: Database, q: AirportQuery): (r: seq<Airport>)
    reads db
    ensures forall i :: 0 <= i < |r| ==> r[i] in db.airports && Matches(BuildWhere(q), r[i])
    ensures forall i :: 0 <= i < |db.airports| && Matches(BuildWhere(q), db.airports[i]) ==> db.airports[i] in r
    ensures forall a :: multiset(r)[a] == if Matches(BuildWhere(q), a) then multiset(db.airports)[a] else 0
    ensures forall i, j :: 0 <= i < j < |r| ==>
              StrLeq(r[i].country, r[j].country)
              && (r[i].country == r[j].country ==> StrLeq(r[i].city, r[j].city))
  {
    var w := BuildWhere(q);
    var keep := (a: Airport) => Matches(w, a);
    var sorted := SortBy(Filter(db.airports, keep), CountryCity);
    SortedSelection(db.airports, keep, CountryCity);
    CountryCityOrdered(sorted);
    sorted
  }

  lemma CountryCityOrdered(s: seq<Airport>)
    requires SortedBy(s, CountryCity)
    ensures forall i, j :: 0 <= i < j < |s| ==>
              StrLeq(s[i].country, s[j].country) && (s[i].country == s[j].country ==> StrLeq(s[i].city, s[j].city))
  {
    forall i, j | 0 <= i < j < |s|
      ensures StrLeq(s[i].country, s[j].country) && (s[i].country == s[j].country ==> StrLeq(s[i].city, s[j].city))
    {
      assert LexLeq(CountryCity(s[i]), CountryCity(s[j]));
      AscAscOrder(s[i].country, s[i].city, s[j].country, s[j].city);
      StrLeqRefl(s[i].country);
    }
  }

  function NewAirport(data: AirportData): (a: Airport)
    ensures a.id == data.id && a.icaoCode == data.icaoCode && a.iataCode == data.iataCode
    ensures a.name == data.name && a.city == data.city && a.country == data.country && a.timezone == data.timezone
  {
    Airport(data.id, data.name, data.icaoCode, data.iataCode, data.city, data.country, data.timezone)
  }

  /** The code is the primary key: a taken one makes the insert fail in the
      store (no domain error) and writes nothing; otherwise one row is appended. */
  method CreateAirport(db: Database, data: AirportData) returns (r: Result<Airport>)
    requires db.Valid()
    modifies db`airports
    ensures db.Valid()
    ensures r.Fail? <==> FindBy(old(db.airports), AirportId, data.id).Some?
    ensures r.Fail? ==> r.failure.StoreFailure? && db.airports == old(db.airports)
    ensures r.Ok? ==> r.value == NewAirport(data) && db.airports == old(db.airports) + [r.value]
  {
    if FindBy(db.airports, AirportId, data.id).Some? {
      return Fail(StoreFailure("unique constraint on Airport.id"));
    }
    var a := NewAirport(data);
    UniqueAfterAppend(db.airports, AirportId, a);
    db.airports := db.airports + [a];
    r := Ok(a);
  }

  /** Given fields win; absent ones keep the stored value. The code never changes. */
  function PatchedAirport(a: Airport, p: AirportPatch): (b: Airport)
    ensures b.id == a.id
    ensures p.name.None? ==> b.name == a.name
    ensures p.name.Some? ==> b.name == p.name.value
    ensures p.icaoCode.None? ==> b.icaoCode == a.icaoCode
    ensures p.icaoCode.Some? ==> b.icaoCode == p.icaoCode.value
    ensures p.iataCode.None? ==> b.iataCode == a.iataCode
    ensures p.iataCode.Some? ==> b.iataCode == p.iataCode
    ensures p.city.None? ==> b.city == a.city
    ensures p.city.Some? ==> b.city == p.city.value
    ensures p.country.None? ==> b.country == a.country
    ensures p.country.Some? ==> b.country == p.country.value
    ensures p.timezone.None? ==> b.timezone == a.timezone
    ensures p.timezone.Some? ==> b.timezone == p.timezone.value
  {
    Airport(a.id, p.name.OrElse(a.name), p.icaoCode.OrElse(a.icaoCode),
            if p.iataCode.Some? then p.iataCode else a.iataCode,
            p.city.OrElse(a.city), p.country.OrElse(a.country), p.timezone.OrElse(a.timezone))
  }

  /** A patch with no fields leaves the airport as it was. */
  lemma EmptyPatchChangesNothing(a: Airport)
    ensures PatchedAirport(a, AirportPatch(None, None, None, None, None, None)) == a
  {
  }

  const AirportNotFound := "Airport not found"

  /** NotFound for an unknown code, writing nothing; otherwise the row is
      replaced in place. */
  method UpdateAirport(db: Database, airportId: string, patch: AirportPatch) returns (r: Result<Airport>)
    requires db.Valid()
    modifies db`airports
    ensures db.Valid()
    ensures r.Fail? <==> FindBy(old(db.airports), AirportId, airportId).None?
    ensures r.Fail? ==> r == Throw(NotFoundError(AirportNotFound)) && db.airports == old(db.airports)
    ensures r.Ok? ==> var i := FindBy(old(db.airports), AirportId, airportId).value;
                      r.value == PatchedAirport(old(db.airports)[i], patch)
                      && db.airports == old(db.airports)[i := r.value]
  {
    var found := FindBy(db.airports, AirportId, airportId);
    if found.None? {
      return Throw(NotFoundError(AirportNotFound));
    }
    var i := found.value;
    var b := PatchedAirport(db.airports[i], patch);
    UniqueAfterReplace(db.airports, AirportId, i, b);
    db.airports := db.airports[i := b];
    r := Ok(b);
  }
}
