// `baggage.service.ts`: a flight's baggage list, creation with the
// passenger-on-flight check, and the scan that stamps status, time and
// last location.
module BaggageService {
  import opened Common
  import opened Store
  import opened Ordering
  import opened AppErrors
  import FlightsService

  function CreatedAsc(b: BaggageItem): seq<int> { AscNum(b.createdAtMs) }

  /** NotFound for a missing flight; otherwise exactly the flight's items, oldest first. */
  function ListBaggage(db: Database, flightId: string): (r: Result<seq<BaggageItem>>)
    reads db
    ensures r.Fail? <==> FlightsService.GetFlightById(db, flightId).Fail?
    ensures r.Fail? ==> r.failure == FlightsService.GetFlightById(db, flightId).failure
    ensures r.Ok? ==> forall i :: 0 <= i < |r.value| ==> r.value[i] in db.baggage && r.value[i].flightId == flightId
    ensures r.Ok? ==> forall i :: 0 <= i < |db.baggage| && db.baggage[i].flightId == flightId ==>
                        db.baggage[i] in r.value
    ensures r.Ok? ==> forall b :: multiset(r.value)[b] == if b.flightId == flightId then multiset(db.baggage)[b] else 0
    ensures r.Ok? ==> forall i, j :: 0 <= i < j < |r.value| ==> r.value[i].createdAtMs <= r.value[j].createdAtMs
  {
    match FlightsService.GetFlightById(db, flightId)
    case Fail(e) => Fail(e)
    case Ok(_) =>
      var keep := (b: BaggageItem) => b.flightId == flightId;
      var sorted := SortBy(Filter(db.baggage, keep), CreatedAsc);
      SortedSelection(db.baggage, keep, CreatedAsc);
      OldestFirst(sorted);
      Ok(sorted)
  }

  lemma OldestFirst(s: seq<BaggageItem>)
    requires SortedBy(s, CreatedAsc)
    ensures forall i, j :: 0 <= i < j < |s| ==> s[i].createdAtMs <= s[j].createdAtMs
  {
    forall i, j | 0 <= i < j < |s| ensures s[i].createdAtMs <= s[j].createdAtMs {
      NumOrder(s[i].createdAtMs, s[j].createdAtMs);
    }
  }

  /** The validated body; `fields` holds weight and piece count. */
  datatype CreateBaggageInput = CreateBaggageInput(passengerId: Option<string>, tagCode: string,
                                                   status: Option<string>, metadata: Option<map<string, Json>>,
                                                   fields: map<string, Json>)

  function NewBaggage(id: string, flightId: string, data: CreateBaggageInput, nowMs: int): (b: BaggageItem)
    ensures b.id == id && b.flightId == flightId && b.passengerId == data.passengerId
    ensures b.status == data.status.OrElse("created")
    ensures b.lastScannedAtMs.None? && b.createdAtMs == nowMs
  {
    BaggageItem(id, flightId, data.passengerId, data.tagCode, data.status.OrElse("created"),
                if data.metadata.Some? then Some(JObj(data.metadata.value)) else None,
                None, nowMs, data.fields)
  }

  const PassengerNotOnFlight := "Passenger not found on flight"

  /** The passenger `id` names a passenger of this flight. */
  predicate PassengerOnFlight(passengers: seq<Passenger>, passengerId: string, flightId: string)
  {
    var found := FindBy(passengers, PassengerId, passengerId);
    found.Some? && passengers[found.value].flightId == flightId
  }

  /** NotFound for a missing flight, then NotFound for a given passenger that
      is not on this flight; both write nothing. Otherwise one item is
      appended with the route's flight id. `id` is the fresh key. */
  method CreateBaggage(db: Database, flightId: string, data: CreateBaggageInput, id: string, nowMs: int)
    returns (r: Result<BaggageItem>)
    requires db.Valid() && FindBy(db.baggage, BaggageId, id).None?
    modifies db`baggage
    ensures db.Valid()
    ensures FindBy(db.flights, FlightId, flightId).None? ==>
              r == Throw(NotFoundError(FlightsService.FlightNotFound))
    ensures FindBy(db.flights, FlightId, flightId).Some? && Truthy(data.passengerId)
            && !PassengerOnFlight(db.passengers, data.passengerId.value, flightId) ==>
              r == Throw(NotFoundError(PassengerNotOnFlight))
    ensures r.Ok? <==> FindBy(db.flights, FlightId, flightId).Some?
                       && (Truthy(data.passengerId) ==> PassengerOnFlight(db.passengers, data.passengerId.value, flightId))
    ensures r.Fail? ==> db.baggage == old(db.baggage)
    ensures r.Ok? ==> r.value == NewBaggage(id, flightId, data, nowMs) && db.baggage == old(db.baggage) + [r.value]
  {
    if FindBy(db.flights, FlightId, flightId).None? {
      return Throw(NotFoundError(FlightsService.FlightNotFound));
    }
    if Truthy(data.passengerId) {
      if !PassengerOnFlight(db.passengers, data.passengerId.value, flightId) {
        return Throw(NotFoundError(PassengerNotOnFlight));
      }
    }
    var b := NewBaggage(id, flightId, data, nowMs);
    UniqueAfterAppend(db.baggage, BaggageId, b);
    db.baggage := db.baggage + [b];
    r := Ok(b);
  }

  /** The keys an object spread copies from a stored metadata value: an
      object's own fields, nothing from null. */
  function SpreadFields(m: Option<Json>): (f: map<string, Json>)
    ensures m.Some? && m.value.JObj? ==> f == m.value.fields
  {
    if m.Some? && m.value.JObj? then m.value.fields else map[]
  }

  /** `{...metadata, lastLocation: location ?? null}`. */
  function ScanMetadata(m: Option<Json>, location: Option<string>): (j: Json)
    ensures j.JObj? && j.fields.Keys == SpreadFields(m).Keys + {"lastLocation"}
    ensures j.fields["lastLocation"] == if location.Some? then JStr(location.value) else JNull
    ensures forall k :: k in SpreadFields(m) && k != "lastLocation" ==> j.fields[k] == SpreadFields(m)[k]
  {
    JObj(SpreadFields(m)["lastLocation" := if location.Some? then JStr(location.value) else JNull])
  }

  /** A second scan overwrites only `lastLocation` again. */
  lemma RescanOverwritesLocation(m: Option<Json>, l1: Option<string>, l2: Option<string>)
    ensures ScanMetadata(Some(ScanMetadata(m, l1)), l2) == ScanMetadata(m, l2)
  {
    var once := ScanMetadata(m, l1).fields;
    var lhs := ScanMetadata(Some(ScanMetadata(m, l1)), l2).fields;
    var rhs := ScanMetadata(m, l2).fields;
    assert lhs.Keys == rhs.Keys;
    forall k | k in lhs ensures lhs[k] == rhs[k] {
    }
    assert lhs == rhs;
  }

  datatype ScanBaggageInput = ScanBaggageInput(status: string, location: Option<string>, scannedAtMs: Option<int>)

  function Scanned(b: BaggageItem, input: ScanBaggageInput, nowMs: int): (c: BaggageItem)
    ensures c.id == b.id && c.flightId == b.flightId && c.passengerId == b.passengerId && c.tagCode == b.tagCode
    ensures c.status == input.status && c.lastScannedAtMs == Some(input.scannedAtMs.OrElse(nowMs))
    ensures c.metadata == Some(ScanMetadata(b.metadata, input.location))
  {
    b.(status := input.status, lastScannedAtMs := Some(input.scannedAtMs.OrElse(nowMs)),
       metadata := Some(ScanMetadata(b.metadata, input.location)))
  }

  const BaggageNotFound := "Baggage item not found"

  /** NotFound for a missing item, writing nothing; otherwise the row is
      replaced in place by `Scanned`. */
  method ScanBaggage(db: Database, baggageId: string, input: ScanBaggageInput, nowMs: int)
    returns (r: Result<BaggageItem>)
    requires db.Valid()
    modifies db`baggage
    ensures db.Valid()
    ensures r.Fail? <==> FindBy(old(db.baggage), BaggageId, baggageId).None?
    ensures r.Fail? ==> r == Throw(NotFoundError(BaggageNotFound)) && db.baggage == old(db.baggage)
    ensures r.Ok? ==> var i := FindBy(old(db.baggage), BaggageId, baggageId).value;
                      r.value == Scanned(old(db.baggage)[i], input, nowMs)
                      && db.baggage == old(db.baggage)[i := r.value]
  {
    var found := FindBy(db.baggage, BaggageId, baggageId);
    if found.None? {
      return Throw(NotFoundError(BaggageNotFound));
    }
    var i := found.value;
    var c := Scanned(db.baggage[i], input, nowMs);
    UniqueAfterReplace(db.baggage, BaggageId, i, c);
    db.baggage := db.baggage[i := c];
    r := Ok(c);
  }
}
