// `qrpass.service.ts`: boarding and crew passes. A pass is issued for a
// passenger or crew member of a flight; issuing again for the same holder
// rotates the existing pass in place instead of adding a second one.
module QrPassService {
  import opened Common
  import opened Store
  import opened AppErrors

  const HourMs: int := 3600000
  const DefaultValidityHours: int := 48

  /** A requested expiry is used as given; otherwise 48 hours from now. */
  function BuildExpiresAt(requested: Option<int>, nowMs: int): (t: int)
    ensures requested.Some? ==> t == requested.value
    ensures requested.None? ==> t == nowMs + DefaultValidityHours * HourMs
  {
    if requested.Some? then requested.value else nowMs + DefaultValidityHours * HourMs
  }

  /** Who a pass is for: the flight, the passenger or crew member, and the pass type. */
  datatype Holder = Holder(flightId: string, entityId: string, kind: QrPassType)

  function HolderOf(q: QrPass): (h: Option<Holder>)
    ensures h.Some? ==> h.value.flightId == q.flightId && h.value.kind == q.kind
  {
    match q.kind
    case PASSENGER => if q.passengerId.Some? then Some(Holder(q.flightId, q.passengerId.value, PASSENGER)) else None
    case CREW => if q.crewMemberId.Some? then Some(Holder(q.flightId, q.crewMemberId.value, CREW)) else None
  }

  /** The `findFirst` condition `{flightId, passengerId | crewMemberId, type}`. */
  predicate HoldsFor(q: QrPass, h: Holder) { HolderOf(q) == Some(h) }

  /** No two passes are for the same holder. */
  predicate OnePassPerHolder(qs: seq<QrPass>)
  {
    forall i, j :: 0 <= i < j < |qs| && HolderOf(qs[i]).Some? ==> HolderOf(qs[i]) != HolderOf(qs[j])
  }

  function FindPass(qs: seq<QrPass>, h: Holder): (r: Option<nat>)
    ensures r.Some? ==> r.value < |qs| && HoldsFor(qs[r.value], h)
    ensures r.Some? ==> forall i :: 0 <= i < r.value ==> !HoldsFor(qs[i], h)
    ensures r.None? <==> forall i :: 0 <= i < |qs| ==> !HoldsFor(qs[i], h)
  {
    if qs == [] then None
    else if HoldsFor(qs[0], h) then Some(0)
    else match FindPass(qs[1..], h)
      case None => None
      case Some(i) => Some(i + 1)
  }

  /** What a (re)issue writes: the new token and its hash, the access level,
      issuer, issue time and expiry. */
  datatype Issue = Issue(token: string, payloadHash: string, accessLevel: string,
                         generatedById: string, generatedAtMs: int, expiresAtMs: int)

  /** The update branch: a rotated pass, now 'active'. */
  function Reissued(q: QrPass, s: Issue): (p: QrPass)
    ensures p.id == q.id && HolderOf(p) == HolderOf(q) && p.token == s.token && p.status == Some("active")
  {
    q.(token := s.token, accessLevel := s.accessLevel, payloadHash := s.payloadHash,
       generatedById := s.generatedById, generatedAtMs := s.generatedAtMs,
       expiresAtMs := s.expiresAtMs, status := Some("active"))
  }

  /** The create branch: a new pass, with the status left to the column default. */
  function Issued(id: string, h: Holder, s: Issue): (p: QrPass)
    ensures p.id == id && HoldsFor(p, h) && p.token == s.token && p.status.None?
  {
    QrPass(id, h.flightId,
           if h.kind == PASSENGER then Some(h.entityId) else None,
           if h.kind == CREW then Some(h.entityId) else None,
           h.kind, s.token, s.payloadHash, s.accessLevel, s.generatedById, s.generatedAtMs,
           s.expiresAtMs, None)
  }

  /** The passes after an issue for `h`, and the pass it returns. */
  function Upserted(qs: seq<QrPass>, h: Holder, s: Issue, id: string): (r: (seq<QrPass>, QrPass))
    ensures FindPass(qs, h).Some? ==> var i := FindPass(qs, h).value;
              r.1 == Reissued(qs[i], s) && r.0 == qs[i := r.1]
    ensures FindPass(qs, h).None? ==> r.1 == Issued(id, h, s) && r.0 == qs + [r.1]
  {
    match FindPass(qs, h)
    case Some(i) => (qs[i := Reissued(qs[i], s)], Reissued(qs[i], s))
    case None => (qs + [Issued(id, h, s)], Issued(id, h, s))
  }

  /** Issuing keeps one pass per holder: afterwards exactly one pass is for
      `h`, it carries the new token, and the number of passes grows by one
      only when there was none for `h`. */
  lemma UpsertKeepsOnePass(qs: seq<QrPass>, h: Holder, s: Issue, id: string)
    requires OnePassPerHolder(qs)
    ensures var (after, q) := Upserted(qs, h, s, id);
      && OnePassPerHolder(after)
      && q in after && HoldsFor(q, h) && q.token == s.token
      && (forall i :: 0 <= i < |after| && HoldsFor(after[i], h) ==> after[i] == q)
      && |after| == |qs| + (if FindPass(qs, h).None? then 1 else 0)
  {
    var (after, q) := Upserted(qs, h, s, id);
    match FindPass(qs, h)
    case Some(k) =>
      assert after[k] == q && HoldsFor(qs[k], h);
      forall i | 0 <= i < |after| && i != k ensures !HoldsFor(after[i], h) {
        assert after[i] == qs[i];
        if i < k { assert HolderOf(qs[i]) != HolderOf(qs[k]); } else { assert HolderOf(qs[k]) != HolderOf(qs[i]); }
      }
    case None =>
      assert forall i :: 0 <= i < |qs| ==> HolderOf(qs[i]) != Some(h);
  }

  /** `hashPayload("<flightId>:<entityId>:<token>")`. */
  function PayloadHash(hash: string -> string, h: Holder, token: string): string
  {
    hash(h.flightId + ":" + h.entityId + ":" + token)
  }

  /** The validated body. The access level is as the caller sent it; see
      `LevelOr` for the defaults. */
  datatype QrPassInput = QrPassInput(accessLevel: Option<string>, expiresAtMs: Option<int>)

  /** The level sent, or `fallback` when none was: the payload schema's
      `.default('passenger')` and the service's `?? 'crew'` are the two
      instances. */
  function LevelOr(input: QrPassInput, fallback: string): (a: string)
    ensures input.accessLevel.None? ==> a == fallback
    ensures input.accessLevel.Some? ==> a == input.accessLevel.value
  {
    input.accessLevel.OrElse(fallback)
  }

  const PassengerLevel := "passenger"
  const CrewFallback := "crew"

  /** As written, the crew handler parses the body with the shared payload
      schema, whose default fills `accessLevel` with 'passenger' before the
      service's `?? 'crew'` sees it. */
  function CrewAccessLevelAsWritten(input: QrPassInput): (a: string)
    ensures a == LevelOr(input, PassengerLevel)
  {
    Some(LevelOr(input, PassengerLevel)).OrElse(CrewFallback)
  }

  /** Which crew default a request gets: `SchemaDefault` is the handler as
      written, `ServiceDefault` the corrected one where the service's 'crew'
      fallback is reached. */
  datatype CrewDefault = SchemaDefault | ServiceDefault

  function CrewLevel(d: CrewDefault, input: QrPassInput): (a: string)
    ensures input.accessLevel.Some? ==> a == input.accessLevel.value
    ensures input.accessLevel.None? ==> a == (if d == SchemaDefault then "passenger" else "crew")
  {
    if d == SchemaDefault then CrewAccessLevelAsWritten(input) else LevelOr(input, CrewFallback)
  }

  /** A crew pass requested without an access level gets 'passenger' as
      written, and 'crew' only in the corrected reading. */
  lemma CrewDefaultIsDead()
    ensures CrewAccessLevelAsWritten(QrPassInput(None, None)) == "passenger"
    ensures CrewLevel(ServiceDefault, QrPassInput(None, None)) == "crew"
  {
  }

  function IssueFor(h: Holder, accessLevel: string, input: QrPassInput, userId: string,
                    token: string, hash: string -> string, nowMs: int): (s: Issue)
    ensures s.token == token && s.payloadHash == PayloadHash(hash, h, token)
    ensures s.accessLevel == accessLevel && s.generatedById == userId && s.generatedAtMs == nowMs
    ensures s.expiresAtMs == BuildExpiresAt(input.expiresAtMs, nowMs)
  {
    Issue(token, PayloadHash(hash, h, token), accessLevel, userId, nowMs, BuildExpiresAt(input.expiresAtMs, nowMs))
  }

  /** Find the holder's pass, then rotate it in place or create one. `token`
      is the fresh random token and `id` the fresh key. */
  method UpsertPass(db: Database, h: Holder, s: Issue, id: string) returns (q: QrPass)
    requires db.Valid() && FindBy(db.qrPasses, QrPassId, id).None? && FindBy(db.qrPasses, QrPassToken, s.token).None?
    modifies db`qrPasses
    ensures db.Valid()
    ensures (db.qrPasses, q) == Upserted(old(db.qrPasses), h, s, id)
  {
    var existing := FindPass(db.qrPasses, h);
    if existing.Some? {
      var i := existing.value;
      q := Reissued(db.qrPasses[i], s);
      UniqueAfterReplace(db.qrPasses, QrPassId, i, q);
      UniqueAfterReplaceFresh(db.qrPasses, QrPassToken, i, q);
      db.qrPasses := db.qrPasses[i := q];
    } else {
      q := Issued(id, h, s);
      UniqueAfterAppend(db.qrPasses, QrPassId, q);
      UniqueAfterAppend(db.qrPasses, QrPassToken, q);
      db.qrPasses := db.qrPasses + [q];
    }
  }

  const PassengerNotOnFlight := "Passenger not found on flight"
  const CrewNotOnFlight := "Crew member not found on flight"

  predicate PassengerOnFlight(passengers: seq<Passenger>, passengerId: string, flightId: string)
  {
    var found := FindBy(passengers, PassengerId, passengerId);
    found.Some? && passengers[found.value].flightId == flightId
  }

  predicate CrewOnFlight(crew: seq<CrewMember>, crewId: string, flightId: string)
  {
    var found := FindBy(crew, CrewId, crewId);
    found.Some? && crew[found.value].flightId == flightId
  }

  /** NotFound, writing nothing, unless the passenger is on this flight;
      otherwise the passenger's pass is issued or rotated. */
  method GeneratePassengerQrPass(db: Database, flightId: string, passengerId: string, input: QrPassInput,
                                 userId: string, token: string, hash: string -> string, nowMs: int, id: string)
    returns (r: Result<QrPass>)
    requires db.Valid() && FindBy(db.qrPasses, QrPassId, id).None? && FindBy(db.qrPasses, QrPassToken, token).None?
    modifies db`qrPasses
    ensures db.Valid()
    ensures r.Fail? <==> !PassengerOnFlight(db.passengers, passengerId, flightId)
    ensures r.Fail? ==> r == Throw(NotFoundError(PassengerNotOnFlight)) && db.qrPasses == old(db.qrPasses)
    ensures r.Ok? ==> var h := Holder(flightId, passengerId, PASSENGER);
      (db.qrPasses, r.value)
      == Upserted(old(db.qrPasses), h, IssueFor(h, LevelOr(input, PassengerLevel), input, userId, token, hash, nowMs), id)
  {
    if !PassengerOnFlight(db.passengers, passengerId, flightId) {
      return Throw(NotFoundError(PassengerNotOnFlight));
    }
    var h := Holder(flightId, passengerId, PASSENGER);
    var q := UpsertPass(db, h, IssueFor(h, LevelOr(input, PassengerLevel), input, userId, token, hash, nowMs), id);
    r := Ok(q);
  }

  /** The same for a crew member of the flight. As written (`SchemaDefault`)
      the body reaches the service through the shared payload schema, so the
      level stored is 'passenger' when none was sent. */
  method GenerateCrewQrPass(db: Database, flightId: string, crewId: string, input: QrPassInput,
                            defaulting: CrewDefault,
                            userId: string, token: string, hash: string -> string, nowMs: int, id: string)
    returns (r: Result<QrPass>)
    requires db.Valid() && FindBy(db.qrPasses, QrPassId, id).None? && FindBy(db.qrPasses, QrPassToken, token).None?
    modifies db`qrPasses
    ensures db.Valid()
    ensures r.Fail? <==> !CrewOnFlight(db.crew, crewId, flightId)
    ensures r.Fail? ==> r == Throw(NotFoundError(CrewNotOnFlight)) && db.qrPasses == old(db.qrPasses)
    ensures r.Ok? ==> var h := Holder(flightId, crewId, CREW);
      (db.qrPasses, r.value)
      == Upserted(old(db.qrPasses), h, IssueFor(h, CrewLevel(defaulting, input), input, userId, token, hash, nowMs), id)
  {
    if !CrewOnFlight(db.crew, crewId, flightId) {
      return Throw(NotFoundError(CrewNotOnFlight));
    }
    var h := Holder(flightId, crewId, CREW);
    var q := UpsertPass(db, h, IssueFor(h, CrewLevel(defaulting, input), input, userId, token, hash, nowMs), id);
    r := Ok(q);
  }

  /** The public view: the pass with its flight, passenger and crew member. */
  datatype PublicPass = PublicPass(pass: QrPass, flight: Option<Flight>, passenger: Option<Passenger>,
                                   crewMember: Option<CrewMember>)

  const PassNotFound := "QR Pass not found"

  /** `findUnique` by token; NotFound when no pass carries it. */
  function GetQrPassPublic(db: Database, token: string): (r: Result<PublicPass>)
    reads db
    ensures r.Fail? <==> forall i :: 0 <= i < |db.qrPasses| ==> db.qrPasses[i].token != token
    ensures r.Fail? ==> r == Throw(NotFoundError(PassNotFound))
    ensures r.Ok? ==> r.value.pass in db.qrPasses && r.value.pass.token == token
    ensures r.Ok? ==> r.value.flight == Lookup(db.flights, FlightId, r.value.pass.flightId)
    ensures r.Ok? && r.value.pass.passengerId.None? ==> r.value.passenger.None?
    ensures r.Ok? && r.value.pass.passengerId.Some? ==>
              r.value.passenger == Lookup(db.passengers, PassengerId, r.value.pass.passengerId.value)
    ensures r.Ok? && r.value.pass.crewMemberId.None? ==> r.value.crewMember.None?
    ensures r.Ok? && r.value.pass.crewMemberId.Some? ==>
              r.value.crewMember == Lookup(db.crew, CrewId, r.value.pass.crewMemberId.value)
  {
    match Lookup(db.qrPasses, QrPassToken, token)
    case None => Throw(NotFoundError(PassNotFound))
    case Some(q) =>
      Ok(PublicPass(q, Lookup(db.flights, FlightId, q.flightId),
                    if q.passengerId.Some? then Lookup(db.passengers, PassengerId, q.passengerId.value) else None,
                    if q.crewMemberId.Some? then Lookup(db.crew, CrewId, q.crewMemberId.value) else None))
  }

  /** A pass just issued is what the public lookup finds by its token, and a
      rotated pass's old token finds nothing any more. */
  lemma IssuedPassIsFound(qs: seq<QrPass>, h: Holder, s: Issue, id: string)
    requires UniqueBy(qs, QrPassToken) && FindBy(qs, QrPassToken, s.token).None?
    ensures var (after, q) := Upserted(qs, h, s, id);
      Lookup(after, QrPassToken, s.token) == Some(q)
    ensures FindPass(qs, h).Some? ==>
      var old_token := qs[FindPass(qs, h).value].token;
      Lookup(Upserted(qs, h, s, id).0, QrPassToken, old_token).None?
  {
    var (after, q) := Upserted(qs, h, s, id);
    match FindPass(qs, h)
    case Some(k) =>
      UniqueAfterReplaceFresh(qs, QrPassToken, k, q);
      LookupUnique(after, QrPassToken, s.token, k);
      forall i | 0 <= i < |after| ensures after[i].token != qs[k].token {
        if i != k {
          if i < k { assert qs[i].token != qs[k].token; } else { assert qs[k].token != qs[i].token; }
        }
      }
    case None =>
      UniqueAfterAppend(qs, QrPassToken, q);
      LookupUnique(after, QrPassToken, s.token, |qs|);
  }
}
