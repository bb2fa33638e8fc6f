// `passengers.service.ts`: a flight's passenger list, creation (which also
// bumps the flight's passenger counter) and update within the flight.
module PassengersService {
  import opened Common
  import opened Store
  import opened Ordering
  import opened AppErrors
  import FlightsService

  function NameAsc(p: Passenger): seq<int> { AscText(p.fullName) }

  /** NotFound for a missing flight; otherwise exactly the flight's passengers,
      by name. */
  function ListPassengers(db: Database, flightId: string): (r: Result<seq<Passenger>>)
    reads db
    ensures r.Fail? <==> FlightsService.GetFlightById(db, flightId).Fail?
    ensures r.Fail? ==> r.failure == FlightsService.GetFlightById(db, flightId).failure
    ensures r.Ok? ==> forall i :: 0 <= i < |r.value| ==> r.value[i] in db.passengers && r.value[i].flightId == flightId
    ensures r.Ok? ==> forall i :: 0 <= i < |db.passengers| && db.passengers[i].flightId == flightId ==>
                        db.passengers[i] in r.value
    ensures r.Ok? ==> forall p :: multiset(r.value)[p] == if p.flightId == flightId then multiset(db.passengers)[p] else 0
    ensures r.Ok? ==> forall i, j :: 0 <= i < j < |r.value| ==> StrLeq(r.value[i].fullName, r.value[j].fullName)
  {
    match FlightsService.GetFlightById(db, flightId)
    case Fail(e) => Fail(e)
    case Ok(_) =>
      var keep := (p: Passenger) => p.flightId == flightId;
      var sorted := SortBy(Filter(db.passengers, keep), NameAsc);
      SortedSelection(db.passengers, keep, NameAsc);
      ByName(sorted);
      Ok(sorted)
  }

  lemma ByName(s: seq<Passenger>)
    requires SortedBy(s, NameAsc)
    ensures forall i, j :: 0 <= i < j < |s| ==> StrLeq(s[i].fullName, s[j].fullName)
  {
    forall i, j | 0 <= i < j < |s| ensures StrLeq(s[i].fullName, s[j].fullName) {
      AscTextOrder(s[i].fullName, s[j].fullName);
    }
  }

  /** The validated body: the name and the other optional columns. */
  datatype CreatePassengerInput = CreatePassengerInput(fullName: string, fields: map<string, Json>)

  /** `{...data, flightId}`: the route's flight id wins over any in the body. */
  function NewPassenger(id: string, flightId: string, data: CreatePassengerInput): (p: Passenger)
    ensures p.id == id && p.flightId == flightId && p.fullName == data.fullName
    ensures "flightId" !in p.details
    ensures forall k :: k in data.fields && k != "flightId" ==> k in p.details && p.details[k] == data.fields[k]
  {
    Passenger(id, flightId, data.fullName, data.fields - {"flightId"})
  }

  /** The flight row after its `passengerCount: {increment: 1}, updatedAt` write. */
  function Counted(f: Flight, nowMs: int): (g: Flight)
    ensures g.passengerCount == f.passengerCount + 1 && g.updatedAtMs == nowMs
    ensures g.(passengerCount := f.passengerCount, updatedAtMs := f.updatedAtMs) == f
  {
    f.(passengerCount := f.passengerCount + 1, updatedAtMs := nowMs)
  }

  /** NotFound for a missing flight, writing nothing. Otherwise the passenger is
      appended, and then the flight's counter goes up by exactly one; no other
      flight changes. `id` is the fresh key. */
  method CreatePassenger(db: Database, flightId: string, data: CreatePassengerInput, id: string, nowMs: int)
    returns (r: Result<Passenger>)
    requires db.Valid() && FindBy(db.passengers, PassengerId, id).None?
    modifies db`passengers, db`flights
    ensures db.Valid()
    ensures r.Fail? <==> FindBy(old(db.flights), FlightId, flightId).None?
    ensures r.Fail? ==> r == Throw(NotFoundError(FlightsService.FlightNotFound))
                        && db.passengers == old(db.passengers) && db.flights == old(db.flights)
    ensures r.Ok? ==> r.value == NewPassenger(id, flightId, data) && db.passengers == old(db.passengers) + [r.value]
    ensures r.Ok? ==> var i := FindBy(old(db.flights), FlightId, flightId).value;
                      db.flights == old(db.flights)[i := Counted(old(db.flights)[i], nowMs)]
  {
    var found := FindBy(db.flights, FlightId, flightId);
    if found.None? {
      return Throw(NotFoundError(FlightsService.FlightNotFound));
    }
    var p := NewPassenger(id, flightId, data);
    UniqueAfterAppend(db.passengers, PassengerId, p);
    db.passengers := db.passengers + [p];
    var i := found.value;
    var g := Counted(db.flights[i], nowMs);
    UniqueAfterReplace(db.flights, FlightId, i, g);
    UniqueAfterReplace(db.flights, FlightUid, i, g);
    db.flights := db.flights[i := g];
    r := Ok(p);
  }

  /** The validated partial body. */
  datatype PassengerPatch = PassengerPatch(fullName: Option<string>, fields: map<string, Json>)

  function PatchedPassenger(p: Passenger, patch: PassengerPatch): (q: Passenger)
    ensures q.id == p.id && q.flightId == p.flightId
    ensures q.fullName == patch.fullName.OrElse(p.fullName)
    ensures q.details.Keys == p.details.Keys + (patch.fields.Keys - {"flightId"})
  {
    p.(fullName := patch.fullName.OrElse(p.fullName), details := p.details + (patch.fields - {"flightId"}))
  }

  const PassengerNotFound := "Passenger not found"

  /** The passenger must exist on this very flight, else NotFound and no
      write. The row is replaced in place; flights, and so the passenger
      counter, are not touched. */
  method UpdatePassenger(db: Database, flightId: string, passengerId: string, patch: PassengerPatch)
    returns (r: Result<Passenger>)
    requires db.Valid()
    modifies db`passengers
    ensures db.Valid()
    ensures var found := FindBy(old(db.passengers), PassengerId, passengerId);
      r.Fail? <==> found.None? || old(db.passengers)[found.value].flightId != flightId
    ensures r.Fail? ==> r == Throw(NotFoundError(PassengerNotFound)) && db.passengers == old(db.passengers)
    ensures r.Ok? ==> var i := FindBy(old(db.passengers), PassengerId, passengerId).value;
                      r.value == PatchedPassenger(old(db.passengers)[i], patch)
                      && db.passengers == old(db.passengers)[i := r.value]
  {
    var found := FindBy(db.passengers, PassengerId, passengerId);
    if found.None? || db.passengers[found.value].flightId != flightId {
      return Throw(NotFoundError(PassengerNotFound));
    }
    var i := found.value;
    var q := PatchedPassenger(db.passengers[i], patch);
    UniqueAfterReplace(db.passengers, PassengerId, i, q);
    db.passengers := db.passengers[i := q];
    r := Ok(q);
  }

  /** The number of passenger rows on a flight. */
  function OnFlight(passengers: seq<Passenger>, flightId: string): (n: nat)
    ensures n <= |passengers|
  {
    if passengers == [] then 0
    else (if passengers[0].flightId == flightId then 1 else 0) + OnFlight(passengers[1..], flightId)
  }

  lemma {:induction false} OnFlightAppend(passengers: seq<Passenger>, p: Passenger, flightId: string)
    ensures OnFlight(passengers + [p], flightId)
            == OnFlight(passengers, flightId) + (if p.flightId == flightId then 1 else 0)
  {
    if passengers != [] {
      assert (passengers + [p])[1..] == passengers[1..] + [p];
      OnFlightAppend(passengers[1..], p, flightId);
    }
  }

  /** A flight's counter and its passenger rows go up together on create,
      so a counter that agreed with the rows still agrees afterwards. */
  lemma CreateKeepsCount(passengers: seq<Passenger>, f: Flight, id: string, data: CreatePassengerInput, nowMs: int)
    requires f.passengerCount == OnFlight(passengers, f.id)
    ensures Counted(f, nowMs).passengerCount == OnFlight(passengers + [NewPassenger(id, f.id, data)], f.id)
  {
    OnFlightAppend(passengers, NewPassenger(id, f.id, data), f.id);
  }

  /** An update keeps the passenger on its flight, so the rows per flight do
      not change. */
  lemma {:induction false} UpdateKeepsCount(passengers: seq<Passenger>, i: nat, patch: PassengerPatch, flightId: string)
    requires i < |passengers|
    ensures OnFlight(passengers[i := PatchedPassenger(passengers[i], patch)], flightId) == OnFlight(passengers, flightId)
  {
    var q := PatchedPassenger(passengers[i], patch);
    if i > 0 {
      assert passengers[i := q][1..] == passengers[1..][i - 1 := q];
      UpdateKeepsCount(passengers[1..], i - 1, patch, flightId);
    } else {
      assert passengers[i := q][1..] == passengers[1..];
    }
  }
}
