// `authority.service.ts`: the read-only authority console: flights by
// airport and date, and a flight's latest General Declaration.
module AuthorityService {
  import opened Common
  import opened Store
  import opened Ordering
  import opened AppErrors
  import FlightsService

  /** The airport and date clauses exactly as the flight filter builds them,
      and never an operator or status clause, whatever the query holds. */
  function BuildAuthorityWhere(filters: FlightsService.FlightFilters, toDate: string -> int)
    : (w: FlightsService.FlightWhere)
    ensures w.operatorContains.None? && w.status.None?
    ensures w == FlightsService.BuildWhere(filters.(operator := None, status := None), toDate)
  {
    FlightsService.FlightWhere(
      None, None,
      if Truthy(filters.airport) then filters.airport else None,
      if Truthy(filters.dateFrom) || Truthy(filters.dateTo) then
        Some(FlightsService.DateRange(
          if Truthy(filters.dateFrom) then Some(toDate(filters.dateFrom.value)) else None,
          if Truthy(filters.dateTo) then Some(toDate(filters.dateTo.value)) else None))
      else None)
  }

  /** Operators and statuses in the query make no difference. */
  lemma AuthorityIgnoresOperatorAndStatus(filters: FlightsService.FlightFilters, toDate: string -> int,
                                          operator: Option<string>, status: Option<FlightStatus>)
    ensures BuildAuthorityWhere(filters.(operator := operator, status := status), toDate)
            == BuildAuthorityWhere(filters, toDate)
  {
  }

  /** The columns the console selects; `aircraftType` and `scheduledArrival`
      are the two selected entries of `details`. */
  datatype AuthorityFlight = AuthorityFlight(id: string, uid: string, operatorName: string,
                                             departureAirportId: string, arrivalAirportId: string,
                                             scheduledDepartureMs: int, status: Option<FlightStatus>,
                                             selected: map<string, Json>)

  function Project(f: Flight): (a: AuthorityFlight)
    ensures a.id == f.id && a.scheduledDepartureMs == f.scheduledDepartureMs
    ensures a.selected.Keys == f.details.Keys * {"aircraftType", "scheduledArrival"}
  {
    AuthorityFlight(f.id, f.uid, f.operatorName, f.departureAirportId, f.arrivalAirportId,
                    f.scheduledDepartureMs, f.status,
                    map k | k in f.details && k in {"aircraftType", "scheduledArrival"} :: f.details[k])
  }

  const AuthorityLimit: nat := 200

  /** At most 200 matching flights, newest departure first. */
  function TopFlights(db: Database, w: FlightsService.FlightWhere): (top: seq<Flight>)
    reads db
    ensures var matching := FlightsService.Selected(db.flights, w);
      |top| == if |matching| < AuthorityLimit then |matching| else AuthorityLimit
    ensures forall i :: 0 <= i < |top| ==> top[i] in db.flights && FlightsService.Matches(w, top[i])
    ensures forall i, j :: 0 <= i < j < |top| ==> top[i].scheduledDepartureMs >= top[j].scheduledDepartureMs
    ensures forall f :: f in FlightsService.Selected(db.flights, w) && f !in top ==>
              |top| == AuthorityLimit && f.scheduledDepartureMs <= top[|top| - 1].scheduledDepartureMs
    ensures multiset(top) <= multiset(FlightsService.Selected(db.flights, w))
  {
    var matching := FlightsService.Selected(db.flights, w);
    var top := Take(SortBy(matching, FlightsService.DepartureDesc), AuthorityLimit);
    NewestFirstPrefix(matching);
    LeftOutDepartNoLater(matching);
    TopAreSelected(db.flights, w);
    TopWithinMatches(matching);
    top
  }

  /** No match is shown more often than it matches. */
  lemma TopWithinMatches(matching: seq<Flight>)
    ensures multiset(Take(SortBy(matching, FlightsService.DepartureDesc), AuthorityLimit)) <= multiset(matching)
  {
    var sorted := SortBy(matching, FlightsService.DepartureDesc);
    var top := Take(sorted, AuthorityLimit);
    assert sorted == top + sorted[|top|..];
    assert multiset(sorted) == multiset(top) + multiset(sorted[|top|..]);
  }

  /** What is kept of the newest-first order is among the flights and matches. */
  lemma TopAreSelected(flights: seq<Flight>, w: FlightsService.FlightWhere)
    ensures var top := Take(SortBy(FlightsService.Selected(flights, w), FlightsService.DepartureDesc), AuthorityLimit);
      forall i :: 0 <= i < |top| ==> top[i] in flights && FlightsService.Matches(w, top[i])
  {
    var matching := FlightsService.Selected(flights, w);
    var top := Take(SortBy(matching, FlightsService.DepartureDesc), AuthorityLimit);
    NewestFirstPrefix(matching);
    forall i | 0 <= i < |top| ensures top[i] in flights && FlightsService.Matches(w, top[i]) {
      var k :| 0 <= k < |matching| && matching[k] == top[i];
    }
  }

  /** The first 200 of the newest-first order are matches, newest first. */
  lemma NewestFirstPrefix(matching: seq<Flight>)
    ensures var top := Take(SortBy(matching, FlightsService.DepartureDesc), AuthorityLimit);
      && (forall i :: 0 <= i < |top| ==> top[i] in matching)
      && (forall i, j :: 0 <= i < j < |top| ==> top[i].scheduledDepartureMs >= top[j].scheduledDepartureMs)
  {
    var sorted := SortBy(matching, FlightsService.DepartureDesc);
    var top := Take(sorted, AuthorityLimit);
    SortedPrefix(sorted, |top|, FlightsService.DepartureDesc);
    forall i | 0 <= i < |top| ensures top[i] in matching {
      assert top[i] == sorted[i];
      assert sorted[i] in multiset(sorted);
    }
    forall i, j | 0 <= i < j < |top| ensures top[i].scheduledDepartureMs >= top[j].scheduledDepartureMs {
      NumOrder(top[i].scheduledDepartureMs, top[j].scheduledDepartureMs);
    }
  }

  /** A match left out of the first 200 departs no later than the last one kept. */
  lemma LeftOutDepartNoLater(matching: seq<Flight>)
    ensures var top := Take(SortBy(matching, FlightsService.DepartureDesc), AuthorityLimit);
      forall f :: f in matching && f !in top ==>
        |top| == AuthorityLimit && f.scheduledDepartureMs <= top[|top| - 1].scheduledDepartureMs
  {
    var sorted := SortBy(matching, FlightsService.DepartureDesc);
    var top := Take(sorted, AuthorityLimit);
    forall f | f in matching && f !in top
      ensures |top| == AuthorityLimit && f.scheduledDepartureMs <= top[|top| - 1].scheduledDepartureMs
    {
      assert f in multiset(sorted);
      var k :| 0 <= k < |sorted| && sorted[k] == f;
      if k < |top| {
        assert false;
      }
      NumOrder(sorted[|top| - 1].scheduledDepartureMs, f.scheduledDepartureMs);
    }
  }

  /** The console listing: the selected columns of `TopFlights`. */
  function ListAuthorityFlights(db: Database, filters: FlightsService.FlightFilters, toDate: string -> int)
    : (r: seq<AuthorityFlight>)
    reads db
    ensures var top := TopFlights(db, BuildAuthorityWhere(filters, toDate));
      |r| == |top| && forall i :: 0 <= i < |r| ==> r[i] == Project(top[i])
    ensures forall i, j :: 0 <= i < j < |r| ==> r[i].scheduledDepartureMs >= r[j].scheduledDepartureMs
  {
    var top := TopFlights(db, BuildAuthorityWhere(filters, toDate));
    seq(|top|, i requires 0 <= i < |top| => Project(top[i]))
  }

  predicate IsDeclarationOf(d: Document, flightId: string)
  {
    d.flightId == flightId && d.docType == GENERAL_DECLARATION
  }

  function GeneratedDesc(d: Document): seq<int> { DescNum(d.generatedAtMs) }

  const DeclarationNotFound := "General Declaration not found"

  /** `findFirst` of the flight's General Declarations, newest `generatedAt`
      first; NotFound when the flight has none (a missing flight included). */
  function GetLatestGeneralDeclaration(db: Database, flightId: string): (r: Result<Document>)
    reads db
    ensures r.Fail? <==> forall i :: 0 <= i < |db.documents| ==> !IsDeclarationOf(db.documents[i], flightId)
    ensures r.Fail? ==> r == Throw(NotFoundError(DeclarationNotFound))
    ensures r.Ok? ==> r.value in db.documents && IsDeclarationOf(r.value, flightId)
    ensures r.Ok? ==> forall i :: 0 <= i < |db.documents| && IsDeclarationOf(db.documents[i], flightId) ==>
                        db.documents[i].generatedAtMs <= r.value.generatedAtMs
  {
    var candidates := Filter(db.documents, (d: Document) => IsDeclarationOf(d, flightId));
    if candidates == [] then
      assert forall i :: 0 <= i < |db.documents| ==> !IsDeclarationOf(db.documents[i], flightId);
      Throw(NotFoundError(DeclarationNotFound))
    else
      var sorted := SortBy(candidates, GeneratedDesc);
      assert sorted[0] in multiset(candidates);
      forall i | 0 <= i < |db.documents| && IsDeclarationOf(db.documents[i], flightId)
        ensures db.documents[i].generatedAtMs <= sorted[0].generatedAtMs
      {
        var d := db.documents[i];
        assert d in multiset(sorted);
        var j :| 0 <= j < |sorted| && sorted[j] == d;
        if j > 0 {
          NumOrder(sorted[0].generatedAtMs, d.generatedAtMs);
        }
      }
      Ok(sorted[0])
  }
}
