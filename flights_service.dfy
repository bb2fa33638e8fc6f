// `flights.service.ts`: the flight filter, the paged listing, lookup,
// creation with a unique `uid`, and update with a version bump.
module FlightsService {
  import opened Common
  import opened Store
  import opened Ordering
  import opened AppErrors
  import opened Pagination

  /** The validated list query. Dates are still text; `toDate` below is
      `new Date(text)` as epoch milliseconds. */
  datatype FlightFilters = FlightFilters(dateFrom: Option<string>, dateTo: Option<string>,
                                         airport: Option<string>, operator: Option<string>,
                                         status: Option<FlightStatus>)

  datatype DateRange = DateRange(gte: Option<int>, lte: Option<int>)

  /** The `Prisma.FlightWhereInput` the filter builds; `airport` is the
      two-armed `OR`. */
  datatype FlightWhere = FlightWhere(operatorContains: Option<string>, status: Option<FlightStatus>,
                                     airport: Option<string>, scheduledDeparture: Option<DateRange>)

  predicate InRange(t: int, r: DateRange)
  {
    (r.gte.Some? ==> t >= r.gte.value) && (r.lte.Some? ==> t <= r.lte.value)
  }

  /** How the database evaluates the where-object on one row. */
  predicate Matches(w: FlightWhere, f: Flight)
  {
    && (w.operatorContains.Some? ==> ContainsInsensitive(f.operatorName, w.operatorContains.value))
    && (w.status.Some? ==> f.status == w.status)
    && (w.airport.Some? ==> f.departureAirportId == w.airport.value || f.arrivalAirportId == w.airport.value)
    && (w.scheduledDeparture.Some? ==> InRange(f.scheduledDepartureMs, w.scheduledDeparture.value))
  }

  /** Each clause is present exactly when its filter is truthy, and the date
      object holds only the bounds given. */
  function BuildWhere(filters: FlightFilters, toDate: string -> int): (w: FlightWhere)
    ensures w.operatorContains.Some? <==> Truthy(filters.operator)
    ensures w.operatorContains.Some? ==> w.operatorContains == filters.operator
    ensures w.status == filters.status
    ensures w.airport.Some? <==> Truthy(filters.airport)
    ensures w.airport.Some? ==> w.airport == filters.airport
    ensures w.scheduledDeparture.Some? <==> Truthy(filters.dateFrom) || Truthy(filters.dateTo)
    ensures w.scheduledDeparture.Some? ==>
              (w.scheduledDeparture.value.gte.Some? <==> Truthy(filters.dateFrom))
              && (w.scheduledDeparture.value.lte.Some? <==> Truthy(filters.dateTo))
  {
    FlightWhere(
      if Truthy(filters.operator) then filters.operator else None,
      filters.status,
      if Truthy(filters.airport) then filters.airport else None,
      if Truthy(filters.dateFrom) || Truthy(filters.dateTo) then
        Some(DateRange(if Truthy(filters.dateFrom) then Some(toDate(filters.dateFrom.value)) else None,
                       if Truthy(filters.dateTo) then Some(toDate(filters.dateTo.value)) else None))
      else None)
  }

  /** What the filter selects, stated directly on the query: operator is a
      case-insensitive contains, status an equality, airport either end, and
      each date bound applies only when given. */
  lemma BuildWhereSelects(filters: FlightFilters, toDate: string -> int, f: Flight)
    ensures Matches(BuildWhere(filters, toDate), f) <==>
      && (Truthy(filters.operator) ==> ContainsInsensitive(f.operatorName, filters.operator.value))
      && (filters.status.Some? ==> f.status == filters.status)
      && (Truthy(filters.airport) ==>
            f.departureAirportId == filters.airport.value || f.arrivalAirportId == filters.airport.value)
      && (Truthy(filters.dateFrom) ==> f.scheduledDepartureMs >= toDate(filters.dateFrom.value))
      && (Truthy(filters.dateTo) ==> f.scheduledDepartureMs <= toDate(filters.dateTo.value))
  {
  }

  /** An empty query selects every flight. */
  lemma EmptyFilterSelectsAll(toDate: string -> int, f: Flight)
    ensures Matches(BuildWhere(FlightFilters(None, None, None, None, None), toDate), f)
  {
  }

  /** `orderBy: { scheduledDeparture: 'desc' }`. */
  function DepartureDesc(f: Flight): seq<int> { DescNum(f.scheduledDepartureMs) }

  function Selected(flights: seq<Flight>, w: FlightWhere): (r: seq<Flight>)
    ensures forall i :: 0 <= i < |r| ==> r[i] in flights && Matches(w, r[i])
    ensures forall i :: 0 <= i < |flights| && Matches(w, flights[i]) ==> flights[i] in r
  {
    Filter(flights, (f: Flight) => Matches(w, f))
  }

  /** Each matching flight is selected as often as it is stored; others never. */
  lemma SelectedCounts(flights: seq<Flight>, w: FlightWhere)
    ensures forall f :: multiset(Selected(flights, w))[f] == if Matches(w, f) then multiset(flights)[f] else 0
  {
    FilterCounts(flights, (f: Flight) => Matches(w, f));
  }

  /** One page of the matching flights, newest departure first, with the
      count of all matches and the page count. */
  function ListFlights(db: Database, filters: FlightFilters, toDate: string -> int,
                       page: nat, pageSize: nat): (r: PaginatedResult<Flight>)
    reads db
    requires page >= 1 && pageSize >= 1
    ensures var matching := Selected(db.flights, BuildWhere(filters, toDate));
      && r.total == |matching|
      && r.items == Window(SortBy(matching, DepartureDesc), (page - 1) * pageSize, pageSize)
    ensures |r.items| <= pageSize
    ensures forall i :: 0 <= i < |r.items| ==>
              r.items[i] in db.flights && Matches(BuildWhere(filters, toDate), r.items[i])
    ensures forall i, j :: 0 <= i < j < |r.items| ==>
              r.items[i].scheduledDepartureMs >= r.items[j].scheduledDepartureMs
    ensures r.page == page && r.pageSize == pageSize
    ensures r.totalPages == TotalPages(r.total, pageSize) && r.totalPages >= 1
  {
    var matching := Selected(db.flights, BuildWhere(filters, toDate));
    var sorted := SortBy(matching, DepartureDesc);
    var items := Window(sorted, (page - 1) * pageSize, pageSize);
    PageOfMatches(db.flights, BuildWhere(filters, toDate), (page - 1) * pageSize, pageSize);
    PaginatedResult(items, |matching|, page, pageSize, TotalPages(|matching|, pageSize))
  }

  /** A window of the sorted matches holds at most `take` matching flights,
      latest departure first. */
  lemma PageOfMatches(flights: seq<Flight>, w: FlightWhere, skip: nat, take: nat)
    ensures var items := Window(SortBy(Selected(flights, w), DepartureDesc), skip, take);
            && |items| <= take
            && (forall i :: 0 <= i < |items| ==> items[i] in flights && Matches(w, items[i]))
            && (forall i, j :: 0 <= i < j < |items| ==> items[i].scheduledDepartureMs >= items[j].scheduledDepartureMs)
  {
    var matching := Selected(flights, w);
    var sorted := SortBy(matching, DepartureDesc);
    var items := Window(sorted, skip, take);
    WindowSorted(sorted, skip, take, DepartureDesc);
    SortByMembers(matching, DepartureDesc);
    forall i | 0 <= i < |items| ensures items[i] in flights && Matches(w, items[i]) {
      var k :| 0 <= k < |sorted| && sorted[k] == items[i];
      var m :| 0 <= m < |matching| && matching[m] == sorted[k];
    }
    LatestFirst(items);
  }

  lemma LatestFirst(s: seq<Flight>)
    requires SortedBy(s, DepartureDesc)
    ensures forall i, j :: 0 <= i < j < |s| ==> s[i].scheduledDepartureMs >= s[j].scheduledDepartureMs
  {
    forall i, j | 0 <= i < j < |s| ensures s[i].scheduledDepartureMs >= s[j].scheduledDepartureMs {
      NumOrder(s[i].scheduledDepartureMs, s[j].scheduledDepartureMs);
    }
  }

  /** The pages partition the matches: the window starts at `(page-1)*pageSize`,
      and a page past the last one is empty. */
  lemma PageBeyondLastIsEmpty(db: Database, filters: FlightFilters, toDate: string -> int,
                              page: nat, pageSize: nat)
    requires page >= 1 && pageSize >= 1
    requires page > TotalPages(|Selected(db.flights, BuildWhere(filters, toDate))|, pageSize)
    ensures ListFlights(db, filters, toDate, page, pageSize).items == []
  {
    var r := ListFlights(db, filters, toDate, page, pageSize);
    var sorted := SortBy(Selected(db.flights, BuildWhere(filters, toDate)), DepartureDesc);
    assert |sorted| == r.total;
    assert r.total <= (page - 1) * pageSize by {
      if r.total > 0 {
        MulMono(r.totalPages, page - 1, pageSize);
      }
    }
    assert r.items == Window(sorted, (page - 1) * pageSize, pageSize);
  }

  const FlightNotFound := "Flight not found"

  /** `findUnique` by id, NotFound when absent. */
  function GetFlightById(db: Database, flightId: string): (r: Result<Flight>)
    reads db
    ensures r.Ok? ==> r.value in db.flights && r.value.id == flightId
    ensures r.Fail? <==> forall i :: 0 <= i < |db.flights| ==> db.flights[i].id != flightId
    ensures r.Fail? ==> r == Throw(NotFoundError(FlightNotFound))
  {
    match Lookup(db.flights, FlightId, flightId)
    case None => Throw(NotFoundError(FlightNotFound))
    case Some(f) => Ok(f)
  }

  /** The validated create body; columns other than those below are `details`. */
  datatype CreateFlightInput = CreateFlightInput(uid: string, operatorName: string,
                                                 departureAirportId: string, arrivalAirportId: string,
                                                 scheduledDepartureMs: int, status: Option<FlightStatus>,
                                                 details: map<string, Json>)

  /** The version a new row starts at (the column default). */
  const InitialVersion := 1

  function NewFlight(id: string, data: CreateFlightInput, nowMs: int): (f: Flight)
    ensures f.id == id && f.uid == data.uid && f.passengerCount == 0 && f.crewCount == 0
    ensures f.status == data.status && f.details == data.details && f.version == InitialVersion
  {
    Flight(id, data.uid, data.operatorName, data.departureAirportId, data.arrivalAirportId,
           data.scheduledDepartureMs, data.status, 0, 0, InitialVersion, nowMs, data.details)
  }

  const UidConflict := "Flight with this UID already exists"

  function UidDetails(uid: string): Json { JObj(map["uid" := JStr(uid)]) }

  /** A taken `uid` is a Conflict carrying `{uid}` and changes nothing;
      otherwise one row is appended, with both counters at 0. `id` is the
      fresh key the database generates. */
  method CreateFlight(db: Database, data: CreateFlightInput, id: string, nowMs: int)
    returns (r: Result<Flight>)
    requires db.Valid() && FindBy(db.flights, FlightId, id).None?
    modifies db`flights
    ensures db.Valid()
    ensures r.Fail? <==> FindBy(old(db.flights), FlightUid, data.uid).Some?
    ensures r.Fail? ==> r == Throw(ConflictError(UidConflict, Some(UidDetails(data.uid))))
                        && db.flights == old(db.flights)
    ensures r.Ok? ==> r.value == NewFlight(id, data, nowMs) && db.flights == old(db.flights) + [r.value]
  {
    var existing := Lookup(db.flights, FlightUid, data.uid);
    if existing.Some? {
      return Throw(ConflictError(UidConflict, Some(UidDetails(data.uid))));
    }
    var f := NewFlight(id, data, nowMs);
    UniqueAfterAppend(db.flights, FlightId, f);
    UniqueAfterAppend(db.flights, FlightUid, f);
    db.flights := db.flights + [f];
    r := Ok(f);
  }

  /** The validated update body: every field optional. */
  datatype FlightPatch = FlightPatch(uid: Option<string>, operatorName: Option<string>,
                                     departureAirportId: Option<string>, arrivalAirportId: Option<string>,
                                     scheduledDepartureMs: Option<int>, status: Option<FlightStatus>,
                                     details: map<string, Json>)

  /** `{...data, version: {increment: 1}}` over the stored row: given fields
      replace, absent ones keep, and the version goes up by one. */
  function Patched(f: Flight, p: FlightPatch): (g: Flight)
    ensures g.id == f.id && g.version == f.version + 1
    ensures g.passengerCount == f.passengerCount && g.crewCount == f.crewCount
    ensures g.uid == p.uid.OrElse(f.uid) && g.status == (if p.status.Some? then p.status else f.status)
    ensures g.details.Keys == f.details.Keys + p.details.Keys
    ensures forall k :: k in g.details ==> g.details[k] == if k in p.details then p.details[k] else f.details[k]
  {
    f.(uid := p.uid.OrElse(f.uid),
       operatorName := p.operatorName.OrElse(f.operatorName),
       departureAirportId := p.departureAirportId.OrElse(f.departureAirportId),
       arrivalAirportId := p.arrivalAirportId.OrElse(f.arrivalAirportId),
       scheduledDepartureMs := p.scheduledDepartureMs.OrElse(f.scheduledDepartureMs),
       status := if p.status.Some? then p.status else f.status,
       version := f.version + 1,
       details := f.details + p.details)
  }

  /** An empty update still bumps the version and changes nothing else. */
  lemma EmptyPatchOnlyBumps(f: Flight)
    ensures Patched(f, FlightPatch(None, None, None, None, None, None, map[])) == f.(version := f.version + 1)
  {
    assert f.details + map[] == f.details;
  }

  /** The uid a patch would give a row is held by a different row. */
  predicate UidTakenByOther(flights: seq<Flight>, flightId: string, p: FlightPatch)
  {
    p.uid.Some? && exists i :: 0 <= i < |flights| && flights[i].uid == p.uid.value && flights[i].id != flightId
  }

  /** NotFound on a missing id, writing nothing. A uid that another row holds
      breaks the unique index and is a database failure. Otherwise the row is
      replaced in place by `Patched`, and no other row changes. */
  method UpdateFlight(db: Database, flightId: string, p: FlightPatch) returns (r: Result<Flight>)
    requires db.Valid()
    modifies db`flights
    ensures db.Valid()
    ensures |db.flights| == |old(db.flights)|
    ensures FindBy(old(db.flights), FlightId, flightId).None? ==>
              r == Throw(NotFoundError(FlightNotFound)) && db.flights == old(db.flights)
    ensures r.Fail? ==> db.flights == old(db.flights)
    ensures FindBy(old(db.flights), FlightId, flightId).Some? && !UidTakenByOther(old(db.flights), flightId, p) ==>
              var i := FindBy(old(db.flights), FlightId, flightId).value;
              r == Ok(Patched(old(db.flights)[i], p)) && db.flights == old(db.flights)[i := r.value]
    ensures FindBy(old(db.flights), FlightId, flightId).Some? && UidTakenByOther(old(db.flights), flightId, p) ==>
              r.Fail? && r.failure.StoreFailure?
  {
    var found := FindBy(db.flights, FlightId, flightId);
    if found.None? {
      return Throw(NotFoundError(FlightNotFound));
    }
    var i := found.value;
    if UidTakenByOther(db.flights, flightId, p) {
      return Fail(StoreFailure("Unique constraint failed on the fields: (`uid`)"));
    }
    var g := Patched(db.flights[i], p);
    var next := db.flights[i := g];
    assert UniqueBy(next, FlightUid) by {
      forall a, b | 0 <= a < b < |next| ensures next[a].uid != next[b].uid {
        if a == i || b == i {
          var o := if a == i then b else a;
          assert db.flights[o].id != flightId;
        }
      }
    }
    UniqueAfterReplace(db.flights, FlightId, i, g);
    db.flights := db.flights[i := g];
    r := Ok(g);
  }
}
