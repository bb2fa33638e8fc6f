// The TypeScript backend's database as in-memory tables: one sequence of rows
// per Prisma model, in insertion order. Every row carries its own `id`; the
// unique columns the services rely on (`id`, `User.email`, `Role.name`,
// `Flight.uid`, `QRPass.token`) are unique in a `Valid` database, and every
// user's role reference resolves.
module Store {
  import opened Common
  import opened Passwords

  datatype FlightStatus = PLANNED | ACTIVE | COMPLETED | CANCELLED
  datatype DocumentType = GENERAL_DECLARATION | PASSENGER_MANIFEST | CREW_LIST | BAGGAGE_REPORT
  datatype UserStatus = USER_ACTIVE | DISABLED | INVITE_PENDING
  datatype QrPassType = PASSENGER | CREW

  /** Columns the services read or write are fields; the remaining scalar
      columns (aircraft type, registration, arrival times, ...) are `details`. */
  datatype Flight = Flight(id: string, uid: string, operatorName: string,
                           departureAirportId: string, arrivalAirportId: string,
                           scheduledDepartureMs: int, status: Option<FlightStatus>,
                           passengerCount: int, crewCount: int, version: int,
                           updatedAtMs: int, details: map<string, Json>)

  datatype Airport = Airport(id: string, name: string, icaoCode: string, iataCode: Option<string>,
                             city: string, country: string, timezone: string)

  datatype Template = Template(id: string, name: string, description: Option<string>,
                               docType: DocumentType, version: string, storageKey: string,
                               isActive: bool)

  datatype Passenger = Passenger(id: string, flightId: string, fullName: string,
                                 details: map<string, Json>)

  datatype CrewMember = CrewMember(id: string, flightId: string, fullName: string, rank: Option<string>)

  datatype BaggageItem = BaggageItem(id: string, flightId: string, passengerId: Option<string>,
                                     tagCode: string, status: string, metadata: Option<Json>,
                                     lastScannedAtMs: Option<int>, createdAtMs: int,
                                     details: map<string, Json>)

  /** `status` is None until the first regeneration sets it: a new pass gets
      the column default. */
  datatype QrPass = QrPass(id: string, flightId: string, passengerId: Option<string>,
                           crewMemberId: Option<string>, kind: QrPassType, token: string,
                           payloadHash: string, accessLevel: string, generatedById: string,
                           generatedAtMs: int, expiresAtMs: int, status: Option<string>)

  datatype Document = Document(id: string, flightId: string, docType: DocumentType, status: string,
                               storageKey: string, metadata: Json, generatedById: string,
                               generatedAtMs: int, createdAtMs: int)

  datatype Role = Role(id: int, name: string)

  datatype User = User(id: string, email: string, passwordHash: PasswordHash, status: UserStatus,
                       roleId: int, lastLoginAtMs: Option<int>, createdAtMs: int, updatedAtMs: int)

  // ------------------------------------------------------------------
  // Lookups by a unique column
  // ------------------------------------------------------------------

  /** The position of the first row whose `key` is `k`. */
  function FindBy<R>(rows: seq<R>, key: R -> string, k: string): (r: Option<nat>)
    ensures r.Some? ==> r.value < |rows| && key(rows[r.value]) == k
    ensures r.Some? ==> forall i :: 0 <= i < r.value ==> key(rows[i]) != k
    ensures r.None? <==> forall i :: 0 <= i < |rows| ==> key(rows[i]) != k
  {
    if rows == [] then None
    else if key(rows[0]) == k then Some(0)
    else match FindBy(rows[1..], key, k)
      case None => None
      case Some(i) => Some(i + 1)
  }

  /** `findFirst`: the position of the first row that satisfies `keep`. */
  function FindFirst<R>(rows: seq<R>, keep: R -> bool): (r: Option<nat>)
    ensures r.Some? ==> r.value < |rows| && keep(rows[r.value])
    ensures r.Some? ==> forall i :: 0 <= i < r.value ==> !keep(rows[i])
    ensures r.None? <==> forall i :: 0 <= i < |rows| ==> !keep(rows[i])
  {
    if rows == [] then None
    else if keep(rows[0]) then Some(0)
    else match FindFirst(rows[1..], keep)
      case None => None
      case Some(i) => Some(i + 1)
  }

  /** `findUnique`: the row with that value of a unique column, if any. */
  function Lookup<R>(rows: seq<R>, key: R -> string, k: string): (r: Option<R>)
    ensures r.Some? ==> r.value in rows && key(r.value) == k
    ensures r.None? <==> forall i :: 0 <= i < |rows| ==> key(rows[i]) != k
  {
    match FindBy(rows, key, k)
    case None => None
    case Some(i) => Some(rows[i])
  }

  predicate UniqueBy<R>(rows: seq<R>, key: R -> string)
  {
    forall i, j :: 0 <= i < j < |rows| ==> key(rows[i]) != key(rows[j])
  }

  /** In a table with a unique column, the row found is the only one with that value. */
  lemma LookupUnique<R>(rows: seq<R>, key: R -> string, k: string, i: nat)
    requires UniqueBy(rows, key) && i < |rows| && key(rows[i]) == k
    ensures FindBy(rows, key, k) == Some(i)
  {
  }

  /** Replacing a row by one with the same key keeps the column unique. */
  lemma UniqueAfterReplace<R>(rows: seq<R>, key: R -> string, i: nat, row: R)
    requires UniqueBy(rows, key) && i < |rows| && key(row) == key(rows[i])
    ensures UniqueBy(rows[i := row], key)
  {
  }

  /** Appending a row with a fresh key keeps the column unique. */
  lemma UniqueAfterAppend<R>(rows: seq<R>, key: R -> string, row: R)
    requires UniqueBy(rows, key) && FindBy(rows, key, key(row)).None?
    ensures UniqueBy(rows + [row], key)
  {
  }

  /** Replacing a row by one whose key no row holds keeps the column unique. */
  lemma UniqueAfterReplaceFresh<R>(rows: seq<R>, key: R -> string, i: nat, row: R)
    requires UniqueBy(rows, key) && i < |rows| && FindBy(rows, key, key(row)).None?
    ensures UniqueBy(rows[i := row], key)
  {
  }

  function FlightId(f: Flight): string { f.id }
  function FlightUid(f: Flight): string { f.uid }
  function AirportId(a: Airport): string { a.id }
  function TemplateId(t: Template): string { t.id }
  function PassengerId(p: Passenger): string { p.id }
  function CrewId(c: CrewMember): string { c.id }
  function BaggageId(b: BaggageItem): string { b.id }
  function QrPassId(q: QrPass): string { q.id }
  function QrPassToken(q: QrPass): string { q.token }
  function DocumentId(d: Document): string { d.id }
  function UserId(u: User): string { u.id }
  function UserEmail(u: User): string { u.email }
  function RoleName(r: Role): string { r.name }

  /** The role row with primary key `id`. */
  function RoleById(roles: seq<Role>, id: int): (r: Option<Role>)
    ensures r.None? <==> forall i :: 0 <= i < |roles| ==> roles[i].id != id
    ensures r.Some? ==> r.value in roles && r.value.id == id
  {
    if roles == [] then None
    else if roles[0].id == id then Some(roles[0])
    else RoleById(roles[1..], id)
  }

  /** Every user's role reference resolves (the `User.roleId` foreign key). */
  predicate RolesResolve(roles: seq<Role>, users: seq<User>)
  {
    forall i :: 0 <= i < |users| ==> RoleById(roles, users[i].roleId).Some?
  }

  class Database {
    var roles: seq<Role>
    var users: seq<User>
    var flights: seq<Flight>
    var airports: seq<Airport>
    var templates: seq<Template>
    var passengers: seq<Passenger>
    var crew: seq<CrewMember>
    var baggage: seq<BaggageItem>
    var qrPasses: seq<QrPass>
    var documents: seq<Document>

    ghost predicate Valid()
      reads this
    {
      && UniqueBy(roles, RoleName)
      && (forall i, j :: 0 <= i < j < |roles| ==> roles[i].id != roles[j].id)
      && RolesResolve(roles, users)
      && UniqueBy(users, UserId) && UniqueBy(users, UserEmail)
      && UniqueBy(flights, FlightId) && UniqueBy(flights, FlightUid)
      && UniqueBy(airports, AirportId)
      && UniqueBy(templates, TemplateId)
      && UniqueBy(passengers, PassengerId)
      && UniqueBy(crew, CrewId)
      && UniqueBy(baggage, BaggageId)
      && UniqueBy(qrPasses, QrPassId) && UniqueBy(qrPasses, QrPassToken)
      && UniqueBy(documents, DocumentId)
    }

    constructor ()
      ensures Valid()
      ensures roles == [] && users == [] && flights == [] && airports == [] && templates == []
      ensures passengers == [] && crew == [] && baggage == [] && qrPasses == [] && documents == []
    {
      roles, users, flights, airports, templates := [], [], [], [], [];
      passengers, crew, baggage, qrPasses, documents := [], [], [], [], [];
    }
  }
}
