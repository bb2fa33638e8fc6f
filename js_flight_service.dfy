// `services/flight-service.js` of the JavaScript backend: the flight list
// query is assembled from two parallel arrays, the SQL conditions and the
// values bound to their "?" placeholders; a flight is read back through the
// joined SELECT; a new flight is inserted with its column defaults. The SQL
// engine itself enters as functions: `runQuery` answers the data query and
// `runCount` the count query for a WHERE clause and its bound values.
module JsFlightService {
  import opened Common
  import opened AppErrors

  /** A value bound to a placeholder. */
  datatype SqlValue = SText(s: string) | SInt(n: int)

  /** The argument object of `listFlights`; None is `undefined`. The route
      passes `page` and `limit` through `Number`. */
  datatype ListQuery = ListQuery(page: Option<int>, limit: Option<int>, search: Option<string>,
                                 status: Option<string>, operatorId: Option<string>,
                                 originAirportId: Option<string>, destinationAirportId: Option<string>,
                                 departureDateFrom: Option<string>, departureDateTo: Option<string>)

  const DefaultPage := 1
  const DefaultLimit := 20

  function PageOf(q: ListQuery): int { q.page.OrElse(DefaultPage) }
  function LimitOf(q: ListQuery): int { q.limit.OrElse(DefaultLimit) }

  /** `(page - 1) * limit`; nothing stops a page below 1 from giving a negative offset. */
  function Offset(page: int, limit: int): (o: int)
    ensures page >= 1 && limit >= 0 ==> o >= 0
    ensures o + limit == page * limit
  {
    (page - 1) * limit
  }

  /** The search condition: four LIKE placeholders over flight number,
      operator and both airport names. */
  const SearchPieces := ["(f.flight_number LIKE ", " OR o.name LIKE ", " OR ao.name LIKE ", " OR ad.name LIKE ", ")"]
  const SearchSql := Join(SearchPieces, "?")
  const StatusSql := "f.status = ?"
  const OperatorSql := "f.operator_id = ?"
  const OriginSql := "f.origin_airport_id = ?"
  const DestinationSql := "f.destination_airport_id = ?"
  const FromSql := "f.departure_date >= ?"
  const ToSql := "f.departure_date <= ?"

  function LikeValue(search: string): string { "%" + search + "%" }

  /** A truthy filter value contributes its condition. */
  function Part(sql: string, v: Option<string>): seq<string> { if Truthy(v) then [sql] else [] }

  function SearchPart(q: ListQuery): seq<string> { if Truthy(q.search) then [SearchSql] else [] }

  /** The conditions in the order the code tests them: search, status,
      operator, origin, destination, date from, date to. */
  function ConditionsOf(q: ListQuery): seq<string>
  {
    SearchPart(q) + Part(StatusSql, q.status) + Part(OperatorSql, q.operatorId) + Part(OriginSql, q.originAirportId)
    + Part(DestinationSql, q.destinationAirportId) + Part(FromSql, q.departureDateFrom) + Part(ToSql, q.departureDateTo)
  }

  /** ... and the value a truthy filter binds. */
  function Bound(v: Option<string>): seq<SqlValue> { if Truthy(v) then [SText(v.value)] else [] }

  function SearchBound(q: ListQuery): seq<SqlValue>
  {
    if Truthy(q.search) then var like := SText(LikeValue(q.search.value)); [like, like, like, like] else []
  }

  /** The bound values, in the same order as the conditions. */
  function ParamsOf(q: ListQuery): seq<SqlValue>
  {
    SearchBound(q) + Bound(q.status) + Bound(q.operatorId) + Bound(q.originAirportId)
    + Bound(q.destinationAirportId) + Bound(q.departureDateFrom) + Bound(q.departureDateTo)
  }

  lemma {:induction false} CountSeparators(parts: seq<string>, c: char)
    requires parts != [] && forall i :: 0 <= i < |parts| ==> c !in parts[i]
    ensures CountChar(Join(parts, [c]), c) == |parts| - 1
  {
    if |parts| > 1 {
      var rest := Join(parts[1..], [c]);
      assert Join(parts, [c]) == (parts[0] + [c]) + rest;
      CountCharAppend(parts[0] + [c], rest, c);
      CountCharAppend(parts[0], [c], c);
      assert [c][1..] == [];
      CountSeparators(parts[1..], c);
    }
  }

  lemma OneMark(prefix: string)
    requires '?' !in prefix
    ensures CountChar(prefix + "?", '?') == 1
  {
    CountCharAppend(prefix, "?", '?');
    assert "?"[1..] == [];
  }

  lemma SearchMarks()
    ensures CountChar(SearchSql, '?') == 4
  {
    assert forall i :: 0 <= i < |SearchPieces| ==> '?' !in SearchPieces[i];
    CountSeparators(SearchPieces, '?');
  }

  /** Each equality condition has one placeholder. */
  lemma EqualityMarks(sql: string)
    requires sql in {StatusSql, OperatorSql, OriginSql, DestinationSql, FromSql, ToSql}
    ensures CountChar(sql, '?') == 1
  {
    if sql == StatusSql {
      assert sql == "f.status = " + "?";
      OneMark("f.status = ");
    } else if sql == OperatorSql {
      assert sql == "f.operator_id = " + "?";
      OneMark("f.operator_id = ");
    } else if sql == OriginSql {
      assert sql == "f.origin_airport_id = " + "?";
      OneMark("f.origin_airport_id = ");
    } else if sql == DestinationSql {
      assert sql == "f.destination_airport_id = " + "?";
      OneMark("f.destination_airport_id = ");
    } else if sql == FromSql {
      assert sql == "f.departure_date >= " + "?";
      OneMark("f.departure_date >= ");
    } else {
      assert sql == "f.departure_date <= " + "?";
      OneMark("f.departure_date <= ");
    }
  }

  /** Appending a one-placeholder condition for a filter keeps the
      placeholders and the values in step. */
  lemma PartKeepsBalance(done: seq<string>, bound: seq<SqlValue>, sql: string, v: Option<string>)
    requires SumCounts(done, '?') == |bound| && CountChar(sql, '?') == 1
    ensures SumCounts(done + Part(sql, v), '?') == |bound + Bound(v)|
  {
    SumCountsAppend(done, Part(sql, v), '?');
    if Truthy(v) {
      assert Part(sql, v)[1..] == [];
    }
  }

  /** Status, operator and origin each add one placeholder and one value. */
  lemma FirstFiltersBalance(c0: seq<string>, b0: seq<SqlValue>, q: ListQuery)
    requires SumCounts(c0, '?') == |b0|
    ensures SumCounts(c0 + Part(StatusSql, q.status) + Part(OperatorSql, q.operatorId) + Part(OriginSql, q.originAirportId), '?')
            == |b0 + Bound(q.status) + Bound(q.operatorId) + Bound(q.originAirportId)|
  {
    EqualityMarks(StatusSql);
    PartKeepsBalance(c0, b0, StatusSql, q.status);
    var c1, b1 := c0 + Part(StatusSql, q.status), b0 + Bound(q.status);
    EqualityMarks(OperatorSql);
    PartKeepsBalance(c1, b1, OperatorSql, q.operatorId);
    var c2, b2 := c1 + Part(OperatorSql, q.operatorId), b1 + Bound(q.operatorId);
    EqualityMarks(OriginSql);
    PartKeepsBalance(c2, b2, OriginSql, q.originAirportId);
  }

  /** Destination and the two date bounds each add one placeholder and one value. */
  lemma LastFiltersBalance(c3: seq<string>, b3: seq<SqlValue>, q: ListQuery)
    requires SumCounts(c3, '?') == |b3|
    ensures SumCounts(c3 + Part(DestinationSql, q.destinationAirportId) + Part(FromSql, q.departureDateFrom) + Part(ToSql, q.departureDateTo), '?')
            == |b3 + Bound(q.destinationAirportId) + Bound(q.departureDateFrom) + Bound(q.departureDateTo)|
  {
    EqualityMarks(DestinationSql);
    PartKeepsBalance(c3, b3, DestinationSql, q.destinationAirportId);
    var c4, b4 := c3 + Part(DestinationSql, q.destinationAirportId), b3 + Bound(q.destinationAirportId);
    EqualityMarks(FromSql);
    PartKeepsBalance(c4, b4, FromSql, q.departureDateFrom);
    var c5, b5 := c4 + Part(FromSql, q.departureDateFrom), b4 + Bound(q.departureDateFrom);
    EqualityMarks(ToSql);
    PartKeepsBalance(c5, b5, ToSql, q.departureDateTo);
  }

  /** The number of "?" placeholders across the conditions is the number of
      values bound to them. */
  lemma ConditionsBalanced(q: ListQuery)
    ensures SumCounts(ConditionsOf(q), '?') == |ParamsOf(q)|
  {
    SearchMarks();
    var c0, b0 := SearchPart(q), SearchBound(q);
    assert SumCounts(c0, '?') == |b0| by {
      if Truthy(q.search) {
        assert c0[1..] == [];
      }
    }
    FirstFiltersBalance(c0, b0, q);
    var c3 := c0 + Part(StatusSql, q.status) + Part(OperatorSql, q.operatorId) + Part(OriginSql, q.originAirportId);
    var b3 := b0 + Bound(q.status) + Bound(q.operatorId) + Bound(q.originAirportId);
    LastFiltersBalance(c3, b3, q);
  }

  /** The two arrays `listFlights` pushes into: the SQL of every condition
      and, in step, the values its placeholders take. */
  method BuildConditions(q: ListQuery) returns (conditions: seq<string>, params: seq<SqlValue>)
    ensures conditions == ConditionsOf(q) && params == ParamsOf(q)
  {
    conditions := [];
    params := [];
    if Truthy(q.search) {
      conditions := conditions + [SearchSql];
      var likeValue := LikeValue(q.search.value);
      params := params + [SText(likeValue), SText(likeValue), SText(likeValue), SText(likeValue)];
    }
    assert conditions == SearchPart(q) && params == SearchBound(q);
    if Truthy(q.status) {
      conditions := conditions + [StatusSql];
      params := params + [SText(q.status.value)];
    }
    assert conditions == SearchPart(q) + Part(StatusSql, q.status);
    assert params == SearchBound(q) + Bound(q.status);
    if Truthy(q.operatorId) {
      conditions := conditions + [OperatorSql];
      params := params + [SText(q.operatorId.value)];
    }
    assert conditions == SearchPart(q) + Part(StatusSql, q.status) + Part(OperatorSql, q.operatorId);
    assert params == SearchBound(q) + Bound(q.status) + Bound(q.operatorId);
    if Truthy(q.originAirportId) {
      conditions := conditions + [OriginSql];
      params := params + [SText(q.originAirportId.value)];
    }
    assert conditions == SearchPart(q) + Part(StatusSql, q.status) + Part(OperatorSql, q.operatorId)
                         + Part(OriginSql, q.originAirportId);
    assert params == SearchBound(q) + Bound(q.status) + Bound(q.operatorId) + Bound(q.originAirportId);
    if Truthy(q.destinationAirportId) {
      conditions := conditions + [DestinationSql];
      params := params + [SText(q.destinationAirportId.value)];
    }
    assert conditions == SearchPart(q) + Part(StatusSql, q.status) + Part(OperatorSql, q.operatorId)
                         + Part(OriginSql, q.originAirportId) + Part(DestinationSql, q.destinationAirportId);
    assert params == SearchBound(q) + Bound(q.status) + Bound(q.operatorId) + Bound(q.originAirportId)
                     + Bound(q.destinationAirportId);
    if Truthy(q.departureDateFrom) {
      conditions := conditions + [FromSql];
      params := params + [SText(q.departureDateFrom.value)];
    }
    assert conditions == SearchPart(q) + Part(StatusSql, q.status) + Part(OperatorSql, q.operatorId)
                         + Part(OriginSql, q.originAirportId) + Part(DestinationSql, q.destinationAirportId)
                         + Part(FromSql, q.departureDateFrom);
    assert params == SearchBound(q) + Bound(q.status) + Bound(q.operatorId) + Bound(q.originAirportId)
                     + Bound(q.destinationAirportId) + Bound(q.departureDateFrom);
    if Truthy(q.departureDateTo) {
      conditions := conditions + [ToSql];
      params := params + [SText(q.departureDateTo.value)];
    }
    assert conditions == ConditionsOf(q) && params == ParamsOf(q);
  }

  /** `whereClause`: nothing without conditions, else "WHERE " and the
      conditions joined by " AND ". */
  function WhereClause(conditions: seq<string>): (w: string)
    ensures conditions == [] ==> w == ""
    ensures CountChar(w, '?') == SumCounts(conditions, '?')
  {
    CountCharJoin(conditions, " AND ", '?');
    if |conditions| > 0 then
      CountCharAppend("WHERE ", Join(conditions, " AND "), '?');
      "WHERE " + Join(conditions, " AND ")
    else ""
  }

  /** What `listFlights` sends and returns. */
  datatype ListResult<R> = ListResult(data: seq<R>, page: int, limit: int, total: int)

  /** `listFlights`: the data query binds the filter values then limit and
      offset; the count query has the same WHERE clause and only the filter
      values; the pagination echoes the page and limit used. */
  method ListFlights<R>(q: ListQuery, runQuery: (string, seq<SqlValue>) -> seq<R>, runCount: (string, seq<SqlValue>) -> int)
    returns (r: ListResult<R>)
    ensures var where := WhereClause(ConditionsOf(q));
            && r.data == runQuery(where, ParamsOf(q) + [SInt(LimitOf(q)), SInt(Offset(PageOf(q), LimitOf(q)))])
            && r.total == runCount(where, ParamsOf(q))
    ensures r.page == PageOf(q) && r.limit == LimitOf(q)
    ensures CountChar(WhereClause(ConditionsOf(q)), '?') == |ParamsOf(q)|
  {
    var page := PageOf(q);
    var limit := LimitOf(q);
    var offset := Offset(page, limit);
    var conditions, params := BuildConditions(q);
    ConditionsBalanced(q);
    var where := WhereClause(conditions);
    var rows := runQuery(where, params + [SInt(limit), SInt(offset)]);
    var total := runCount(where, params);
    r := ListResult(rows, page, limit, total);
  }

  /** A search binds four copies of "%search%" ahead of every other value. */
  lemma SearchBindsFourLikes(q: ListQuery)
    requires Truthy(q.search)
    ensures var like := SText(LikeValue(q.search.value));
            |ParamsOf(q)| >= 4 && ParamsOf(q)[..4] == [like, like, like, like]
    ensures ConditionsOf(q)[0] == SearchSql
  {
  }

  /** With no truthy filter the query has no WHERE clause and binds only
      limit and offset. */
  lemma NoFiltersNoWhere(q: ListQuery)
    requires !Truthy(q.search) && !Truthy(q.status) && !Truthy(q.operatorId) && !Truthy(q.originAirportId)
    requires !Truthy(q.destinationAirportId) && !Truthy(q.departureDateFrom) && !Truthy(q.departureDateTo)
    ensures ConditionsOf(q) == [] && WhereClause(ConditionsOf(q)) == "" && ParamsOf(q) == []
  {
  }

  /** A single filter gives exactly its condition. */
  lemma StatusOnly(q: ListQuery)
    requires !Truthy(q.search) && Truthy(q.status) && !Truthy(q.operatorId) && !Truthy(q.originAirportId)
    requires !Truthy(q.destinationAirportId) && !Truthy(q.departureDateFrom) && !Truthy(q.departureDateTo)
    ensures WhereClause(ConditionsOf(q)) == "WHERE " + StatusSql && ParamsOf(q) == [SText(q.status.value)]
  {
    assert ConditionsOf(q) == [StatusSql];
  }

  /** A row of `flights`, with the columns `createFlight` writes. */
  datatype FlightRecord = FlightRecord(
    id: string, flightNumber: Option<string>, flightUid: string, operatorId: string, aircraftTypeId: string,
    aircraftRegistration: Option<string>, mtowKg: Option<int>, originAirportId: string, destinationAirportId: string,
    departureDate: string, scheduledDeparture: Option<string>, scheduledArrival: Option<string>,
    actualDeparture: Option<string>, actualArrival: Option<string>, captainName: Option<string>,
    firstOfficerName: Option<string>, passengerCount: int, crewCount: int, status: string,
    turnaroundStatus: string, purpose: string, remarks: Option<string>, createdBy: Option<string>,
    updatedBy: Option<string>)

  /** The request body as `createFlight` receives it; None is `undefined`. */
  datatype FlightPayload = FlightPayload(
    flightNumber: Option<string>, flightUid: string, operatorId: string, aircraftTypeId: string,
    aircraftRegistration: Option<string>, mtowKg: Option<int>, originAirportId: string, destinationAirportId: string,
    departureDate: string, scheduledDeparture: Option<string>, scheduledArrival: Option<string>,
    actualDeparture: Option<string>, actualArrival: Option<string>, captainName: Option<string>,
    firstOfficerName: Option<string>, passengerCount: Option<int>, crewCount: Option<int>, status: Option<string>,
    turnaroundStatus: Option<string>, purpose: Option<string>, remarks: Option<string>, createdBy: Option<string>,
    updatedBy: Option<string>)

  const DefaultStatus := "PLANNED"
  const DefaultTurnaround := "NOT_STARTED"
  const DefaultPurpose := "PRIVATE"

  /** The inserted row: `?? null` keeps an absent optional column empty;
      counts default to 0 and the three enums to PLANNED, NOT_STARTED and
      PRIVATE. */
  function InsertedRow(id: string, p: FlightPayload): (f: FlightRecord)
    ensures f.id == id && f.flightUid == p.flightUid && f.operatorId == p.operatorId
    ensures f.passengerCount == (if p.passengerCount.Some? then p.passengerCount.value else 0)
    ensures f.crewCount == (if p.crewCount.Some? then p.crewCount.value else 0)
    ensures f.status == (if p.status.Some? then p.status.value else DefaultStatus)
    ensures f.turnaroundStatus == (if p.turnaroundStatus.Some? then p.turnaroundStatus.value else DefaultTurnaround)
    ensures f.purpose == (if p.purpose.Some? then p.purpose.value else DefaultPurpose)
  {
    FlightRecord(id, p.flightNumber, p.flightUid, p.operatorId, p.aircraftTypeId, p.aircraftRegistration, p.mtowKg,
                 p.originAirportId, p.destinationAirportId, p.departureDate, p.scheduledDeparture, p.scheduledArrival,
                 p.actualDeparture, p.actualArrival, p.captainName, p.firstOfficerName,
                 p.passengerCount.OrElse(0), p.crewCount.OrElse(0), p.status.OrElse(DefaultStatus),
                 p.turnaroundStatus.OrElse(DefaultTurnaround), p.purpose.OrElse(DefaultPurpose),
                 p.remarks, p.createdBy, p.updatedBy)
  }

  /** `getFlightById`: the first row with that id that survives the four
      INNER JOINs (`joined` says whether its operator, aircraft type and both
      airports exist), else null. */
  function GetFlightById(rows: seq<FlightRecord>, joined: FlightRecord -> bool, flightId: string): (r: Option<FlightRecord>)
    ensures r.None? <==> forall i :: 0 <= i < |rows| ==> rows[i].id != flightId || !joined(rows[i])
    ensures r.Some? ==> r.value in rows && r.value.id == flightId && joined(r.value)
  {
    if rows == [] then None
    else if rows[0].id == flightId && joined(rows[0]) then Some(rows[0])
    else GetFlightById(rows[1..], joined, flightId)
  }

  /** No two rows share an id. */
  predicate DistinctIds(rows: seq<FlightRecord>)
  {
    forall i, j :: 0 <= i < j < |rows| ==> rows[i].id != rows[j].id
  }

  /** The `flights` table; `id` is its primary key. */
  class FlightTable {
    var rows: seq<FlightRecord>

    predicate Valid()
      reads this
    {
      DistinctIds(rows)
    }

    constructor ()
      ensures rows == [] && Valid()
    {
      rows := [];
    }

    /** `createFlight`: insert, then read back through the joined SELECT. A
        taken id is refused by the primary key, and a row whose operator,
        aircraft type or either airport does not exist by the foreign keys
        (`joined` is exactly those four references resolving); either way
        nothing is written. */
    method CreateFlight(flightId: string, p: FlightPayload, joined: FlightRecord -> bool)
      returns (r: Result<Option<FlightRecord>>)
      requires Valid()
      modifies this
      ensures Valid()
      ensures (exists i :: 0 <= i < |old(rows)| && old(rows)[i].id == flightId) ==>
                r.Fail? && r.failure.StoreFailure? && rows == old(rows)
      ensures !joined(InsertedRow(flightId, p)) ==>
                r.Fail? && r.failure.StoreFailure? && rows == old(rows)
      ensures (forall i :: 0 <= i < |old(rows)| ==> old(rows)[i].id != flightId)
              && joined(InsertedRow(flightId, p)) ==>
                rows == old(rows) + [InsertedRow(flightId, p)] && r == Ok(Some(InsertedRow(flightId, p)))
    {
      var k := 0;
      while k < |rows|
        invariant 0 <= k <= |rows|
        invariant forall i :: 0 <= i < k ==> rows[i].id != flightId
      {
        if rows[k].id == flightId {
          return Fail(StoreFailure("Duplicate entry for key 'PRIMARY'"));
        }
        k := k + 1;
      }
      var row := InsertedRow(flightId, p);
      if !joined(row) {
        return Fail(StoreFailure("Cannot add or update a child row: a foreign key constraint fails"));
      }
      rows := rows + [row];
      InsertedIsFound(old(rows), row, joined);
      r := Ok(GetFlightById(rows, joined, flightId));
    }

    /** `updateFlight`: one UPDATE over the row with that id, then the joined
        read. Every column but the id, `flight_uid` and `created_by` is
        overwritten, with the same defaults as on insert. New references that
        do not resolve are refused by the foreign keys and nothing is written;
        an unknown id matches no row and the read gives null. */
    method UpdateFlight(flightId: string, p: FlightPayload, joined: FlightRecord -> bool)
      returns (r: Result<Option<FlightRecord>>)
      requires Valid()
      modifies this
      ensures Valid()
      ensures (exists i :: 0 <= i < |old(rows)| && old(rows)[i].id == flightId
                           && !joined(UpdatedRow(old(rows)[i], p))) ==>
                r.Fail? && r.failure.StoreFailure? && rows == old(rows)
      ensures (forall i :: 0 <= i < |old(rows)| && old(rows)[i].id == flightId ==>
                           joined(UpdatedRow(old(rows)[i], p))) ==>
                && |rows| == |old(rows)|
                && (forall i :: 0 <= i < |rows| ==>
                      rows[i] == if old(rows)[i].id == flightId then UpdatedRow(old(rows)[i], p) else old(rows)[i])
                && r == Ok(GetFlightById(rows, joined, flightId))
                && (r.value.Some? <==> exists i :: 0 <= i < |old(rows)| && old(rows)[i].id == flightId)
    {
      var k := 0;
      while k < |rows|
        invariant 0 <= k <= |rows|
        invariant forall i :: 0 <= i < k ==> rows[i].id != flightId || joined(UpdatedRow(rows[i], p))
      {
        if rows[k].id == flightId && !joined(UpdatedRow(rows[k], p)) {
          return Fail(StoreFailure("Cannot add or update a child row: a foreign key constraint fails"));
        }
        k := k + 1;
      }
      k := 0;
      var next: seq<FlightRecord> := [];
      while k < |rows|
        invariant 0 <= k <= |rows| && |next| == k
        invariant forall i :: 0 <= i < k ==>
                    next[i] == if rows[i].id == flightId then UpdatedRow(rows[i], p) else rows[i]
      {
        next := next + [if rows[k].id == flightId then UpdatedRow(rows[k], p) else rows[k]];
        k := k + 1;
      }
      UpdateKeepsKey(rows, next, flightId, p, joined);
      rows := next;
      r := Ok(GetFlightById(rows, joined, flightId));
    }

    /** `deleteFlight`: `DELETE FROM flights WHERE id = ?`. */
    method DeleteFlight(flightId: string)
      requires Valid()
      modifies this
      ensures Valid()
      ensures rows == WithoutFlight(old(rows), flightId)
    {
      DeleteKeepsKey(rows, flightId);
      rows := WithoutFlight(rows, flightId);
    }
  }

  /** The row an UPDATE leaves: what an insert of `p` under the same id would
      write, except that `flight_uid` and `created_by` are not in the SET list. */
  function UpdatedRow(f: FlightRecord, p: FlightPayload): (u: FlightRecord)
    ensures u.id == f.id && u.flightUid == f.flightUid && u.createdBy == f.createdBy
    ensures u == InsertedRow(f.id, p).(flightUid := f.flightUid, createdBy := f.createdBy)
  {
    FlightRecord(f.id, p.flightNumber, f.flightUid, p.operatorId, p.aircraftTypeId, p.aircraftRegistration, p.mtowKg,
                 p.originAirportId, p.destinationAirportId, p.departureDate, p.scheduledDeparture, p.scheduledArrival,
                 p.actualDeparture, p.actualArrival, p.captainName, p.firstOfficerName,
                 p.passengerCount.OrElse(0), p.crewCount.OrElse(0), p.status.OrElse(DefaultStatus),
                 p.turnaroundStatus.OrElse(DefaultTurnaround), p.purpose.OrElse(DefaultPurpose),
                 p.remarks, f.createdBy, p.updatedBy)
  }

  /** Rewriting the rows with `flightId` in place keeps the ids distinct, and
      the id still reads back exactly when it was there, provided its new
      references resolve. */
  lemma UpdateKeepsKey(rows: seq<FlightRecord>, next: seq<FlightRecord>, flightId: string, p: FlightPayload,
                       joined: FlightRecord -> bool)
    requires DistinctIds(rows) && |next| == |rows|
    requires forall i :: 0 <= i < |rows| ==>
               next[i] == if rows[i].id == flightId then UpdatedRow(rows[i], p) else rows[i]
    requires forall i :: 0 <= i < |rows| && rows[i].id == flightId ==> joined(UpdatedRow(rows[i], p))
    ensures DistinctIds(next)
    ensures GetFlightById(next, joined, flightId).Some? <==>
              exists i :: 0 <= i < |rows| && rows[i].id == flightId
  {
    forall i, j | 0 <= i < j < |next| ensures next[i].id != next[j].id {
      assert next[i].id == rows[i].id && next[j].id == rows[j].id;
    }
    if exists i :: 0 <= i < |rows| && rows[i].id == flightId {
      var i :| 0 <= i < |rows| && rows[i].id == flightId;
      assert next[i].id == flightId && joined(next[i]);
    } else {
      forall i | 0 <= i < |next| ensures next[i].id != flightId {
        assert next[i] == rows[i];
      }
    }
  }

  /** Repeating an update with the same body changes nothing more. */
  lemma UpdateIdempotent(f: FlightRecord, p: FlightPayload)
    ensures UpdatedRow(UpdatedRow(f, p), p) == UpdatedRow(f, p)
  {
  }

  /** The rows other than `flightId`'s, in their order. */
  function WithoutFlight(rows: seq<FlightRecord>, flightId: string): (r: seq<FlightRecord>)
    ensures forall f :: f in r <==> f in rows && f.id != flightId
    ensures |r| <= |rows|
  {
    if rows == [] then []
    else if rows[0].id == flightId then WithoutFlight(rows[1..], flightId)
    else [rows[0]] + WithoutFlight(rows[1..], flightId)
  }

  /** Deleting rows keeps the remaining ids distinct. */
  lemma {:induction false} DeleteKeepsKey(rows: seq<FlightRecord>, flightId: string)
    requires DistinctIds(rows)
    ensures DistinctIds(WithoutFlight(rows, flightId))
  {
    if rows != [] {
      var tail := WithoutFlight(rows[1..], flightId);
      DeleteKeepsKey(rows[1..], flightId);
      if rows[0].id != flightId {
        var r := [rows[0]] + tail;
        forall j | 0 <= j < |tail| ensures tail[j].id != rows[0].id {
          assert tail[j] in rows[1..];
          var k :| 0 <= k < |rows[1..]| && rows[1..][k] == tail[j];
          assert rows[k + 1] == tail[j];
        }
        forall i, j | 0 <= i < j < |r| ensures r[i].id != r[j].id {
          assert r[j] == tail[j - 1];
          if i == 0 {
            assert r[0] == rows[0];
          } else {
            assert r[i] == tail[i - 1];
          }
        }
      }
    }
  }

  /** After a delete the id reads as null, whatever the joins say. */
  lemma DeletedIsGone(rows: seq<FlightRecord>, flightId: string, joined: FlightRecord -> bool)
    ensures GetFlightById(WithoutFlight(rows, flightId), joined, flightId).None?
  {
  }

  /** After inserting a row under a fresh id, reading that id gives the row
      back exactly when its references resolve. */
  lemma {:induction false} InsertedIsFound(rows: seq<FlightRecord>, row: FlightRecord, joined: FlightRecord -> bool)
    requires forall i :: 0 <= i < |rows| ==> rows[i].id != row.id
    ensures GetFlightById(rows + [row], joined, row.id) == if joined(row) then Some(row) else None
  {
    if rows != [] {
      assert (rows + [row])[1..] == rows[1..] + [row];
      InsertedIsFound(rows[1..], row, joined);
    } else {
      assert (rows + [row])[1..] == [];
    }
  }
}
